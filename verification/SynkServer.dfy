/** Synk's loops, which update the cluster, the results map and the owner references step by step. */
module SynkServer {
  import opened Wrappers
  import opened SetNames
  import opened Synk
  import opened SynkRetry
  import opened SynkSets

  /** How an Apply ends: without error, or with one that may go away by itself or not. */
  datatype Result = Success | Failure(transient: bool) | Panicked

  ghost predicate HasFailure(results: Results) { exists k :: k in results && results[k].Some? }

  ghost predicate AllFailuresTransient(results: Results) {
    forall k :: k in results && results[k].Some? ==> results[k].value.transient
  }

  /** How an Apply ends once its version is known. A set that exists already is an error that may go away, a failed
      resource one if all failures are, and a call that fails ends the Apply with its own error. */
  ghost function Ending(c: Cluster, name: string, version: int32, resources: seq<Resource>, listing: seq<string>,
                        calls: Calls): Result {
    var set_ := SetRef(ResourceSetName(name, version), c.nextUid);
    var results := ApplyAll(Installed(c, set_), Crds(resources), Regulars(resources), set_, calls).results;
    if !calls.creates then Failure(calls.failure.transient)
    else if set_.name in c.sets then Failure(true)
    else if !calls.updatesStatus then Failure(calls.failure.transient)
    else if calls.wait.Some? then Failure(calls.wait.value.transient)
    else if HasFailure(results) then Failure(AllFailuresTransient(results))
    else if ApplyVersion(c, name, version, resources, listing, calls).ok then Success
    else Failure(calls.failure.transient)
  }

  class Server {
    var cluster: Cluster

    constructor (cluster: Cluster)
      ensures this.cluster == cluster
    {
      this.cluster := cluster;
    }

    method SetOwnerRef(owners: seq<OwnerRef>, set_: SetRef) returns (refs: seq<OwnerRef>)
      ensures refs == WithSetOwner(owners, set_)
    {
      refs := [];
      for i := 0 to |owners|
        invariant refs == NotOfSets(owners[..i])
      {
        assert owners[..i + 1][..i] == owners[..i];
        if !owners[i].ofSet {
          refs := refs + [owners[i]];
        }
      }
      assert owners[..|owners|] == owners;
      refs := refs + [OwnerRef(true, set_.name, set_.uid)];
    }

    method ValidateOwnerRefs(owners: seq<OwnerRef>, set_: SetRef) returns (ok: bool)
      ensures ok <==> ValidOwners(owners, set_)
    {
      hide DecodeResourceSetName;
      var decoded := DecodeResourceSetName(set_.name);
      if !decoded.Set? {
        return false;
      }
      for i := 0 to |owners|
        invariant forall j :: 0 <= j < i ==> IsPredecessor(owners[j], decoded.name, decoded.version)
      {
        if !owners[i].ofSet {
          continue;
        }
        var owner := DecodeResourceSetName(owners[i].name);
        if !owner.Set? || owner.name != decoded.name || owner.version > decoded.version {
          assert !IsPredecessor(owners[i], decoded.name, decoded.version);
          return false;
        }
      }
      return true;
    }

    method ApplyResource(key: Key, o: Object, set_: SetRef, reply: Reply) returns (err: Option<Error>)
      modifies this
      ensures (cluster, err) == ApplyOne(old(cluster), key, o, set_, reply)
    {
      if key.name == "" {
        return Some(Error(false));
      }
      if reply.GetFails? {
        return Some(reply.error);
      }
      if key !in cluster.objects {
        if reply.WriteFails? {
          return Some(reply.error);
        }
        cluster := Write(cluster, key, o);
        return None;
      }
      var valid := ValidateOwnerRefs(cluster.objects[key].owners, set_);
      if !valid {
        return Some(Error(false));
      }
      if reply.Written? {
        cluster := Write(cluster, key, o);
        return None;
      }
      match reply.next {
        case NotReplaceable => return Some(reply.error);
        case DeleteFails(e) => return Some(e);
        case CreateFails(e, gone) =>
          if gone {
            cluster := cluster.(objects := cluster.objects - {key});
          }
          return Some(e);
        case Replaced =>
          cluster := Write(cluster, key, o);
          return None;
      }
    }

    /** The overall error, whatever the order in which the results map is ranged over. */
    method Summarize(results: Results) returns (r: Result)
      ensures r.Success? <==> AllApplied(results)
      ensures r.Failure? && r.transient <==> HasFailure(results) && AllFailuresTransient(results)
      ensures !r.Panicked?
    {
      var allTransient, numErrors := true, 0;
      var todo := results.Keys;
      while todo != {}
        invariant todo <= results.Keys
        invariant numErrors == 0 <==> forall k :: k in results && k !in todo ==> results[k].None?
        invariant allTransient <==>
          forall k :: k in results && k !in todo && results[k].Some? ==> results[k].value.transient
        decreases todo
      {
        var k :| k in todo;
        todo := todo - {k};
        if results[k].Some? {
          if !results[k].value.transient {
            allTransient := false;
          }
          numErrors := numErrors + 1;
        }
      }
      return if numErrors == 0 then Success else Failure(allTransient);
    }

    /** applyAll: the CRDs, the wait for them, and the retry loop. */
    method ApplyEverything(crds: seq<Resource>, regulars: seq<Resource>, set_: SetRef, calls: Calls)
      returns (results: Results, r: Result, ghost history: seq<nat>)
      modifies this
      ensures var p := ApplyAll(old(cluster), crds, regulars, set_, calls); cluster == p.cluster && results == p.results
      ensures calls.wait.Some? ==> r == Failure(calls.wait.value.transient)
      ensures calls.wait.None? ==>
        && (r.Success? <==> AllApplied(results))
        && (r.Failure? && r.transient <==> HasFailure(results) && AllFailuresTransient(results))
      ensures calls.wait.None? && NamedOnce(regulars) ==>
        Falls(history) && 1 <= |history| <= |regulars| + 1 && |history| <= MAX_PASSES
      ensures !r.Panicked?
    {
      results, history := map[], [];
      ghost var c0 := cluster;
      for i := 0 to |crds|
        invariant Progress(cluster, results, CrdPhase(Progress(c0, map[], 0), crds[..i], set_, calls.crds).failures)
               == CrdPhase(Progress(c0, map[], 0), crds[..i], set_, calls.crds)
      {
        assert crds[..i + 1][..i] == crds[..i];
        var err := ApplyResource(crds[i].key, Object(crds[i].owners, crds[i].body), set_, calls.crds(i));
        results := results[crds[i].key := err];
      }
      assert crds[..|crds|] == crds;
      if calls.wait.Some? {
        return results, Failure(calls.wait.value.transient), [];
      }
      ghost var p := CrdPhase(Progress(c0, map[], 0), crds, set_, calls.crds);
      if NamedOnce(regulars) {
        LoopTerminates(p, regulars, set_, calls.regulars);
      }
      results, history := Retry(p, regulars, set_, calls.regulars, results);
      r := Summarize(results);
    }

    method Retry(ghost p: Progress, regulars: seq<Resource>, set_: SetRef, replies: (nat, nat) -> Reply, start: Results)
      returns (results: Results, ghost history: seq<nat>)
      requires cluster == p.cluster && start == p.results
      modifies this
      ensures
        var end := RetryLoop(p, regulars, set_, replies, 0, 0);
        cluster == end.progress.cluster && results == end.progress.results && history == end.history
    {
      results, history := start, [];
      ghost var goal := RetryLoop(p, regulars, set_, replies, 0, 0);
      var prevFailures, pass := 0, 0;
      while pass < MAX_PASSES
        invariant pass <= MAX_PASSES
        invariant
          exists f :: var end := RetryLoop(Progress(cluster, results, f), regulars, set_, replies, pass, prevFailures);
            goal == LoopEnd(end.progress, history + end.history)
        decreases MAX_PASSES - pass
      {
        ghost var f :| var end := RetryLoop(Progress(cluster, results, f), regulars, set_, replies, pass, prevFailures);
            goal == LoopEnd(end.progress, history + end.history);
        var curFailures;
        ghost var q := RunPass(Progress(cluster, results, f), regulars, set_, pass, replies, |regulars|);
        results, curFailures := OnePass(Progress(cluster, results, f), regulars, set_, pass, replies, results);
        assert q == Progress(cluster, results, curFailures);
        if curFailures == 0 || curFailures == prevFailures {
          history := history + [curFailures];
          return;
        }
        ghost var rest := RetryLoop(q, regulars, set_, replies, pass + 1, curFailures);
        assert history + ([curFailures] + rest.history) == (history + [curFailures]) + rest.history;
        history := history + [curFailures];
        prevFailures := curFailures;
        pass := pass + 1;
      }
      assert history + [] == history;
    }

    method OnePass(ghost p: Progress, regulars: seq<Resource>, set_: SetRef, pass: nat, replies: (nat, nat) -> Reply,
                   start: Results)
      returns (results: Results, curFailures: nat)
      requires cluster == p.cluster && start == p.results
      modifies this
      ensures Progress(cluster, results, curFailures) == RunPass(p, regulars, set_, pass, replies, |regulars|)
    {
      results, curFailures := start, 0;
      for i := 0 to |regulars|
        invariant Progress(cluster, results, curFailures) == RunPass(p, regulars, set_, pass, replies, i)
      {
        var r := regulars[i];
        if pass > 0 && !Failed(results, r.key) {
          continue;
        }
        var owners := SetOwnerRef(r.owners, set_);
        var err := ApplyResource(r.key, Object(owners, r.body), set_, replies(pass, i));
        if err.Some? {
          curFailures := curFailures + 1;
        }
        results := results[r.key := err];
      }
    }

    /** deleteResourceSets, over the sets as they are listed, if `lists` says that they are. */
    method DeleteResourceSets(listing: seq<string>, name: string, version: int32, lists: bool, failsAt: Option<nat>)
      returns (ok: bool)
      modifies this
      ensures lists ==> (cluster.sets, ok) == Prune(old(cluster.sets), listing, name, version, failsAt, 0)
      ensures !lists ==> !ok && cluster == old(cluster)
      ensures cluster == old(cluster).(sets := cluster.sets)
    {
      if !lists {
        return false;
      }
      var i := 0;
      hide IsOlder;
      while i < |listing|
        invariant i <= |listing|
        invariant Prune(old(cluster.sets), listing, name, version, failsAt, 0)
               == Prune(cluster.sets, listing, name, version, failsAt, i)
        invariant cluster == old(cluster).(sets := cluster.sets)
      {
        if IsOlder(listing[i], name, version) {
          if failsAt == Some(i) {
            return false;
          }
          cluster := cluster.(sets := cluster.sets - {listing[i]});
        }
        i := i + 1;
      }
      return true;
    }

    /** The rest of Apply, once the version of the new set is known. */
    method ApplyResources(name: string, version: int32, resources: seq<Resource>, listing: seq<string>, calls: Calls)
      returns (r: Result)
      modifies this
      ensures
        var o := ApplyVersion(old(cluster), name, version, resources, listing, calls);
        cluster == o.cluster && (r.Success? <==> o.ok)
      ensures r == Ending(old(cluster), name, version, resources, listing, calls)
    {
      var set_ := SetRef(ResourceSetName(name, version), cluster.nextUid);
      hide Prune, ResourceSetName, Synk.ApplyAll;
      if !calls.creates {
        return Failure(calls.failure.transient);
      }
      if set_.name in cluster.sets {
        return Failure(true);
      }
      cluster := Installed(cluster, set_);
      var results, err, history := ApplyEverything(Crds(resources), Regulars(resources), set_, calls);
      if !calls.updatesStatus {
        return Failure(calls.failure.transient);
      }
      if err.Success? {
        var ok := DeleteResourceSets(listing + [set_.name], name, version, calls.listsAgain, calls.pruneFailsAt);
        return if ok then Success else Failure(calls.failure.transient);
      }
      return err;
    }

    /** The checks of initialize: the kinds are discovered, then the namespaces checked, and then the version of the new
        set is found. Without a version there is an error. */
    static method ChooseVersion(name: string, options: Options, resources: seq<Resource>, listing: seq<string>,
                                calls: Calls)
      returns (next: Option<NextResult>, error: Error)
      ensures next.Some? <==>
        calls.discovers && calls.lists && forall x :: x in resources ==> NamespaceAllowed(x, options)
      ensures next.Some? && next.value.Next? && !HasVersion(listing, name, 0x7fff_ffff) ==>
        IsNext(listing, name, next.value.version)
      ensures next.None? ==>
        error == if calls.discovers && (exists x :: x in resources && !NamespaceAllowed(x, options)) then Error(false)
                 else calls.failure
    {
      if !calls.discovers {
        return None, calls.failure;
      }
      var i := 0;
      while i < |resources|
        invariant i <= |resources|
        invariant forall j :: 0 <= j < i ==> NamespaceAllowed(resources[j], options)
      {
        if !NamespaceAllowed(resources[i], options) {
          return None, Error(false);
        }
        i := i + 1;
      }
      if !calls.lists {
        return None, calls.failure;
      }
      var version := NextVersion(listing, name);
      return Some(version), calls.failure;
    }

    /** Apply. `listing` is the order in which the API server lists the sets. */
    method Apply(name: string, options: Options, manifest: seq<Resource>, listing: seq<string>, calls: Calls)
      returns (r: Result, version: int32)
      modifies this
      ensures
        var resources := Prepared(manifest, options.namespace);
        var allowed := forall x :: x in resources ==> NamespaceAllowed(x, options);
        if calls.discovers && calls.lists && allowed && !r.Panicked?
        then
          && (var o := ApplyVersion(old(cluster), name, version, resources, listing, calls);
              cluster == o.cluster && (r.Success? <==> o.ok))
          && r == Ending(old(cluster), name, version, resources, listing, calls)
          && (!HasVersion(listing, name, 0x7fff_ffff) ==> IsNext(listing, name, version))
        else
          && cluster == old(cluster) && !r.Success?
          && (r.Failure? ==> r.transient == (if calls.discovers && !allowed then false else calls.failure.transient))
    {
      version := 0;
      var resources := Prepared(manifest, options.namespace);
      hide *;
      var next, error := ChooseVersion(name, options, resources, listing, calls);
      if next.None? {
        return Failure(error.transient), version;
      }
      if next.value.NextPanics? {
        return Panicked, version;
      }
      version := next.value.version;
      r := ApplyResources(name, version, resources, listing, calls);
    }
  }

  /** The version that Apply takes meets what the results on whole sets ask of it. */
  lemma ChosenVersionIsNext(c: Cluster, name: string, version: int32, listing: seq<string>)
    requires name != "" && '\n' !in name && IsNext(listing, name, version)
    requires (set s | s in listing) == c.sets.Keys
    ensures ValidName(name, version) && IsNextVersion(c, name, version, listing)
  {
    hide DecodeResourceSetName;
    forall s, v | s in c.sets && DecodeResourceSetName(s) == Set(name, v) ensures v < version {
      assert s in listing;
      assert HasVersion(listing, name, v);
    }
  }
}
