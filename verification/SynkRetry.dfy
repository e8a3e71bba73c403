/** The retry loop of applyAll: what its passes count, why it ends, and what it leaves behind. */
module SynkRetry {
  import opened Wrappers
  import opened SetNames
  import opened Synk

  /** No two resources with a name have the same key. */
  ghost predicate NamedOnce(resources: seq<Resource>) {
    forall i, j :: 0 <= i < j < |resources| && resources[i].key == resources[j].key ==> resources[i].key.name == ""
  }

  /** How many of the first n resources have a failure as their last result. */
  function CountFailed(results: Results, resources: seq<Resource>, n: nat): (count: nat)
    requires n <= |resources|
    ensures count <= n
  {
    if n == 0 then 0
    else CountFailed(results, resources, n - 1) + (if Failed(results, resources[n - 1].key) then 1 else 0)
  }

  lemma {:induction false} CountIsMonotone(r1: Results, r2: Results, resources: seq<Resource>, n: nat)
    requires n <= |resources|
    requires forall i :: 0 <= i < n && Failed(r1, resources[i].key) ==> Failed(r2, resources[i].key)
    ensures CountFailed(r1, resources, n) <= CountFailed(r2, resources, n)
  {
    if n > 0 {
      CountIsMonotone(r1, r2, resources, n - 1);
    }
  }

  lemma {:induction false} NoneFailed(results: Results, resources: seq<Resource>, n: nat)
    requires n <= |resources|
    ensures CountFailed(results, resources, n) == 0 <==> forall i :: 0 <= i < n ==> !Failed(results, resources[i].key)
  {
    if n > 0 {
      NoneFailed(results, resources, n - 1);
    }
  }

  predicate HasResult(p: Progress, r: Resource, set_: SetRef) {
    && r.key in p.results
    && (p.results[r.key].None? ==> r.key in p.cluster.objects && p.cluster.objects[r.key] == Wanted(r, set_))
  }

  predicate SameAt(p: Progress, q: Progress, k: Key) {
    && (k in q.results <==> k in p.results) && (k in p.results ==> q.results[k] == p.results[k])
    && (k in q.cluster.objects <==> k in p.cluster.objects)
    && (k in p.cluster.objects ==> q.cluster.objects[k] == p.cluster.objects[k])
  }

  lemma AppliedIsLocal(p: Progress, key: Key, o: Object, set_: SetRef, reply: Reply, k: Key)
    ensures
      var q := Applied(p, key, o, set_, reply);
      && q.cluster.sets == p.cluster.sets && q.cluster.nextUid == p.cluster.nextUid
      && (k != key ==> SameAt(p, q, k))
      && key in q.results
      && q.failures == p.failures + (if Failed(q.results, key) then 1 else 0)
      && (q.results[key].None? ==> key in q.cluster.objects && q.cluster.objects[key] == o)
  {
  }

  /** A pass leaves what is not in the list, and after the first pass everything that has not failed: a resource
      that succeeded is never applied again. */
  lemma {:induction false} PassFrame(p: Progress, regulars: seq<Resource>, set_: SetRef, pass: nat,
                                     replies: (nat, nat) -> Reply, n: nat, k: Key)
    requires n <= |regulars|
    requires (forall i :: 0 <= i < n ==> regulars[i].key != k) || (pass > 0 && !Failed(p.results, k))
    ensures
      var q := RunPass(p, regulars, set_, pass, replies, n);
      && q.cluster.sets == p.cluster.sets && q.cluster.nextUid == p.cluster.nextUid
      && SameAt(p, q, k)
  {
    hide Applied, Wanted;
    if n > 0 {
      PassFrame(p, regulars, set_, pass, replies, n - 1, k);
      var r, q := regulars[n - 1], RunPass(p, regulars, set_, pass, replies, n - 1);
      AppliedIsLocal(q, r.key, Wanted(r, set_), set_, replies(pass, n - 1), k);
    }
  }

  lemma NamelessFails(p: Progress, key: Key, o: Object, set_: SetRef, reply: Reply)
    requires key.name == ""
    ensures Failed(Applied(p, key, o, set_, reply).results, key)
  {
  }

  // A resource without a name fails whenever it is applied, so it never stops failing.
  lemma {:induction false} NamelessStays(p: Progress, regulars: seq<Resource>, set_: SetRef, pass: nat,
                                         replies: (nat, nat) -> Reply, n: nat, k: Key)
    requires n <= |regulars| && k.name == ""
    requires Failed(p.results, k) || (pass == 0 && exists i :: 0 <= i < n && regulars[i].key == k)
    ensures Failed(RunPass(p, regulars, set_, pass, replies, n).results, k)
  {
    hide Applied, Wanted;
    if n > 0 {
      var r, q := regulars[n - 1], RunPass(p, regulars, set_, pass, replies, n - 1);
      AppliedIsLocal(q, r.key, Wanted(r, set_), set_, replies(pass, n - 1), k);
      if r.key == k {
        NamelessFails(q, k, Wanted(r, set_), set_, replies(pass, n - 1));
      }
      if r.key != k || pass > 0 {
        NamelessStays(p, regulars, set_, pass, replies, n - 1, k);
      }
    }
  }

  lemma {:induction false} PassResult(p: Progress, regulars: seq<Resource>, set_: SetRef, pass: nat,
                                      replies: (nat, nat) -> Reply, n: nat, i: nat)
    requires i < n <= |regulars| && NamedOnce(regulars)
    requires pass > 0 ==> HasResult(p, regulars[i], set_)
    ensures HasResult(RunPass(p, regulars, set_, pass, replies, n), regulars[i], set_)
  {
    hide Applied, Wanted, NamedOnce;
    var r, q := regulars[n - 1], RunPass(p, regulars, set_, pass, replies, n - 1);
    AppliedIsLocal(q, r.key, Wanted(r, set_), set_, replies(pass, n - 1), regulars[i].key);
    if i < n - 1 {
      PassResult(p, regulars, set_, pass, replies, n - 1, i);
      if r.key == regulars[i].key {
        SameKeyIsNameless(regulars, i, n - 1);
        NamelessFails(q, r.key, Wanted(r, set_), set_, replies(pass, n - 1));
      }
    } else if pass > 0 && !Failed(q.results, r.key) {
      if r.key.name == "" && Failed(p.results, r.key) {
        NamelessStays(p, regulars, set_, pass, replies, n - 1, r.key);
      } else {
        NamedBefore(regulars, n - 1);
        PassFrame(p, regulars, set_, pass, replies, n - 1, r.key);
      }
    }
  }

  lemma SameKeyIsNameless(regulars: seq<Resource>, i: nat, j: nat)
    requires NamedOnce(regulars) && i < j < |regulars| && regulars[i].key == regulars[j].key
    ensures regulars[i].key.name == ""
  {
  }

  lemma NamedBefore(regulars: seq<Resource>, n: nat)
    requires NamedOnce(regulars) && n < |regulars|
    ensures regulars[n].key.name != "" ==> forall i :: 0 <= i < n ==> regulars[i].key != regulars[n].key
  {
  }

  /** The failures of a pass are the resources whose last result is a failure. */
  lemma {:induction false} PassCount(p: Progress, regulars: seq<Resource>, set_: SetRef, pass: nat,
                                     replies: (nat, nat) -> Reply, n: nat)
    requires n <= |regulars| && NamedOnce(regulars)
    ensures
      var q := RunPass(p, regulars, set_, pass, replies, n);
      q.failures == CountFailed(q.results, regulars, n)
  {
    hide Applied, Wanted, NamedOnce;
    if n > 0 {
      PassCount(p, regulars, set_, pass, replies, n - 1);
      var r, q0 := regulars[n - 1], RunPass(p, regulars, set_, pass, replies, n - 1);
      var q := RunPass(p, regulars, set_, pass, replies, n);
      forall i | 0 <= i < n - 1 ensures Failed(q.results, regulars[i].key) == Failed(q0.results, regulars[i].key) {
        AppliedIsLocal(q0, r.key, Wanted(r, set_), set_, replies(pass, n - 1), regulars[i].key);
        if regulars[i].key == r.key {
          SameKeyIsNameless(regulars, i, n - 1);
          NamelessFails(q0, r.key, Wanted(r, set_), set_, replies(pass, n - 1));
          if pass == 0 {
            NamelessStays(p, regulars, set_, pass, replies, n - 1, r.key);
          }
        }
      }
      AppliedIsLocal(q0, r.key, Wanted(r, set_), set_, replies(pass, n - 1), r.key);
      CountIsMonotone(q0.results, q.results, regulars, n - 1);
      CountIsMonotone(q.results, q0.results, regulars, n - 1);
    }
  }

  /** A later pass starts from the failures of the one before, so it cannot end with more. */
  lemma LaterPass(p: Progress, regulars: seq<Resource>, set_: SetRef, pass: nat, replies: (nat, nat) -> Reply)
    requires pass > 0 && NamedOnce(regulars)
    requires forall i :: 0 <= i < |regulars| ==> HasResult(p, regulars[i], set_)
    ensures
      var q := RunPass(p, regulars, set_, pass, replies, |regulars|);
      && q.failures == CountFailed(q.results, regulars, |regulars|) <= CountFailed(p.results, regulars, |regulars|)
      && (forall i :: 0 <= i < |regulars| ==> HasResult(q, regulars[i], set_))
  {
    var n := |regulars|;
    var q := RunPass(p, regulars, set_, pass, replies, n);
    PassCount(p, regulars, set_, pass, replies, n);
    forall i | 0 <= i < n
      ensures HasResult(q, regulars[i], set_)
      ensures Failed(q.results, regulars[i].key) ==> Failed(p.results, regulars[i].key)
    {
      PassResult(p, regulars, set_, pass, replies, n, i);
      if !Failed(p.results, regulars[i].key) {
        PassFrame(p, regulars, set_, pass, replies, n, regulars[i].key);
      }
    }
    hide RunPass, HasResult;
    CountIsMonotone(q.results, p.results, regulars, n);
  }

  /** The numbers of failures fall strictly from pass to pass, except that the last two may be equal. */
  predicate Falls(history: seq<nat>) {
    && (forall i, j :: 0 <= i < j < |history| ==> history[i] >= history[j])
    && (forall i, j :: 0 <= i < j < |history| - 1 ==> history[i] > history[j])
  }

  /** No number above the bound, and only the last may reach it. */
  predicate Below(history: seq<nat>, bound: nat) {
    && (forall i :: 0 <= i < |history| ==> history[i] <= bound)
    && (forall i :: 0 <= i < |history| - 1 ==> history[i] < bound)
  }

  lemma FallsFrom(first: nat, rest: seq<nat>, bound: nat)
    requires Falls(rest) && Below(rest, first)
    ensures Falls([first] + rest)
    ensures first < bound ==> Below([first] + rest, bound)
  {
  }

  lemma FallsAlone(first: nat, bound: nat)
    ensures Falls([first]) && Falls([])
    ensures (first <= bound ==> Below([first], bound)) && Below([], bound)
  {
  }

  lemma {:induction false} LoopFacts(p: Progress, regulars: seq<Resource>, set_: SetRef, replies: (nat, nat) -> Reply,
                                     pass: nat, prev: nat)
    requires pass <= MAX_PASSES && NamedOnce(regulars)
    requires pass == 0 ==> prev == 0
    requires pass > 0 ==> prev == CountFailed(p.results, regulars, |regulars|) > 0
    requires pass > 0 ==> forall i :: 0 <= i < |regulars| ==> HasResult(p, regulars[i], set_)
    ensures
      var end := RetryLoop(p, regulars, set_, replies, pass, prev);
      && |end.history| <= MAX_PASSES - pass
      && |end.history| <= (if pass == 0 then |regulars| + 1 else prev)
      && Falls(end.history)
      && (pass > 0 ==> Below(end.history, prev))
      && (pass < MAX_PASSES ==> |end.history| > 0)
      && (|end.history| > 0 ==>
            end.history[|end.history| - 1] == CountFailed(end.progress.results, regulars, |regulars|))
      && (pass > 0 || |end.history| > 0 ==>
            forall i :: 0 <= i < |regulars| ==> HasResult(end.progress, regulars[i], set_))
    decreases MAX_PASSES - pass
  {
    hide RunPass, HasResult, CountFailed, NamedOnce, Falls, Below;
    FallsAlone(0, prev);
    if pass < MAX_PASSES {
      var q := RunPass(p, regulars, set_, pass, replies, |regulars|);
      AnyPass(p, regulars, set_, pass, replies);
      if q.failures != 0 && q.failures != prev {
        LoopFacts(q, regulars, set_, replies, pass + 1, q.failures);
        FallsFrom(q.failures, RetryLoop(q, regulars, set_, replies, pass + 1, q.failures).history, prev);
      } else {
        FallsAlone(q.failures, prev);
      }
    }
  }

  lemma AnyPass(p: Progress, regulars: seq<Resource>, set_: SetRef, pass: nat, replies: (nat, nat) -> Reply)
    requires NamedOnce(regulars)
    requires pass > 0 ==> forall i :: 0 <= i < |regulars| ==> HasResult(p, regulars[i], set_)
    ensures
      var q := RunPass(p, regulars, set_, pass, replies, |regulars|);
      && q.failures == CountFailed(q.results, regulars, |regulars|) <= |regulars|
      && (pass > 0 ==> q.failures <= CountFailed(p.results, regulars, |regulars|))
      && (forall i :: 0 <= i < |regulars| ==> HasResult(q, regulars[i], set_))
  {
    hide RunPass, HasResult;
    if pass > 0 {
      LaterPass(p, regulars, set_, pass, replies);
    } else {
      var n := |regulars|;
      PassCount(p, regulars, set_, pass, replies, n);
      forall i | 0 <= i < n ensures HasResult(RunPass(p, regulars, set_, pass, replies, n), regulars[i], set_) {
        PassResult(p, regulars, set_, pass, replies, n, i);
      }
    }
  }

  /** The retry loop ends by itself: the failures fall from pass to pass until the last, so there are at most
      n + 1 passes over n resources, and at most ten. What the last pass counted is what has failed. */
  lemma LoopTerminates(p: Progress, regulars: seq<Resource>, set_: SetRef, replies: (nat, nat) -> Reply)
    requires NamedOnce(regulars)
    ensures
      var end := RetryLoop(p, regulars, set_, replies, 0, 0);
      && 1 <= |end.history| <= |regulars| + 1 && |end.history| <= MAX_PASSES
      && Falls(end.history)
      && end.history[|end.history| - 1] == CountFailed(end.progress.results, regulars, |regulars|)
  {
    LoopFacts(p, regulars, set_, replies, 0, 0);
  }

  // ----- Resources of one key -----

  const FAILS := GetFails(Error(true))

  /** In the first pass everything is written but the resource at `last`; after that nothing is. */
  function Replies(last: nat): (nat, nat) -> Reply {
    (pass, i) => if pass == 0 && i != last then Written else FAILS
  }

  function Nameless(regulars: seq<Resource>, n: nat): nat
    requires n <= |regulars|
  {
    if n == 0 then 0 else Nameless(regulars, n - 1) + (if regulars[n - 1].key.name == "" then 1 else 0)
  }

  function Times(regulars: seq<Resource>, n: nat, k: Key): nat
    requires n <= |regulars|
  {
    if n == 0 then 0 else Times(regulars, n - 1, k) + (if regulars[n - 1].key == k then 1 else 0)
  }

  lemma {:induction false} TimesTwo(regulars: seq<Resource>, n: nat, i: nat, j: nat)
    requires i < j < n <= |regulars| && regulars[i].key == regulars[j].key
    ensures Times(regulars, n, regulars[j].key) >= 2
  {
    if n - 1 > j {
      TimesTwo(regulars, n - 1, i, j);
    } else {
      TimesOne(regulars, n - 1, i);
    }
  }

  lemma {:induction false} TimesOne(regulars: seq<Resource>, n: nat, i: nat)
    requires i < n <= |regulars|
    ensures Times(regulars, n, regulars[i].key) >= 1
  {
    if n - 1 > i {
      TimesOne(regulars, n - 1, i);
    }
  }

  /** Every object of the cluster can be taken over by the set. */
  ghost predicate AllTakeable(c: Cluster, set_: SetRef) {
    forall k :: k in c.objects ==> ValidOwners(c.objects[k].owners, set_)
  }

  lemma WantedIsTakeable(r: Resource, set_: SetRef)
    requires DecodeResourceSetName(set_.name).Set?
    ensures ValidOwners(Wanted(r, set_).owners, set_)
  {
    hide DecodeResourceSetName;
    var owners := Wanted(r, set_).owners;
    forall i | 0 <= i < |owners| - 1 ensures !owners[i].ofSet {
      assert owners[i] in NotOfSets(r.owners);
    }
  }

  /** Failed are only resources without a name, and the key when n is past `last`. */
  ghost predicate FailedAre(results: Results, regulars: seq<Resource>, n: nat, k: Key, past: bool)
    requires n <= |regulars|
  {
    && (forall x :: Failed(results, x) ==> x.name == "" || (past && x == k))
    && (forall i :: 0 <= i < n && regulars[i].key.name == "" ==> Failed(results, regulars[i].key))
    && (past ==> Failed(results, k))
  }

  lemma WriteSucceeds(p: Progress, r: Resource, set_: SetRef, reply: Reply)
    requires AllTakeable(p.cluster, set_) && DecodeResourceSetName(set_.name).Set? && reply in {Written, FAILS}
    ensures
      var q := Applied(p, r.key, Wanted(r, set_), set_, reply);
      && AllTakeable(q.cluster, set_)
      && q.results == p.results[r.key := q.results[r.key]]
      && (q.results[r.key].None? <==> r.key.name != "" && reply.Written?)
      && q.failures == p.failures + (if q.results[r.key].None? then 0 else 1)
  {
    hide DecodeResourceSetName, ValidOwners, Wanted;
    WantedIsTakeable(r, set_);
  }

  // The first pass: one failure besides the nameless ones.
  lemma {:induction false} FirstPass(regulars: seq<Resource>, set_: SetRef, last: nat, n: nat)
    requires n <= |regulars| && last < |regulars| && regulars[last].key.name != ""
    requires DecodeResourceSetName(set_.name).Set?
    requires forall i :: last < i < |regulars| ==> regulars[i].key != regulars[last].key
    ensures
      var q := RunPass(Progress(Cluster(map[], map[], 0), map[], 0), regulars, set_, 0, Replies(last), n);
      && AllTakeable(q.cluster, set_)
      && FailedAre(q.results, regulars, n, regulars[last].key, n > last)
      && q.failures == Nameless(regulars, n) + (if n > last then 1 else 0)
  {
    hide DecodeResourceSetName, AllTakeable, Wanted, Applied;
    var p := Progress(Cluster(map[], map[], 0), map[], 0);
    if n > 0 {
      FirstPass(regulars, set_, last, n - 1);
      WriteSucceeds(RunPass(p, regulars, set_, 0, Replies(last), n - 1), regulars[n - 1], set_,
                    Replies(last)(0, n - 1));
    } else {
      EmptyIsTakeable(set_);
    }
  }

  lemma EmptyIsTakeable(set_: SetRef)
    ensures AllTakeable(Cluster(map[], map[], 0), set_)
  {
  }

  // A later pass: every resource of the key fails, and every nameless one.
  lemma {:induction false} SecondPass(p: Progress, regulars: seq<Resource>, set_: SetRef, last: nat, n: nat)
    requires n <= |regulars| && last < |regulars| && regulars[last].key.name != ""
    requires FailedAre(p.results, regulars, |regulars|, regulars[last].key, true)
    ensures
      var q := RunPass(p, regulars, set_, 1, Replies(last), n);
      && FailedAre(q.results, regulars, |regulars|, regulars[last].key, true)
      && q.failures == Nameless(regulars, n) + Times(regulars, n, regulars[last].key)
  {
    hide ValidOwners, Wanted;
    if n > 0 {
      SecondPass(p, regulars, set_, last, n - 1);
    }
  }

  /** Two resources of one key with a name: the last of them fails and the others succeed in the first pass; then the
      second pass applies all of them, and can count more failures than the first. */
  lemma DuplicateKeysMayRise(regulars: seq<Resource>, i: nat, j: nat)
    requires i < j < |regulars| && regulars[i].key == regulars[j].key && regulars[i].key.name != ""
    ensures exists p: Progress, set_: SetRef, replies: (nat, nat) -> Reply ::
      var history := RetryLoop(p, regulars, set_, replies, 0, 0).history;
      |history| > 1 && history[0] < history[1]
  {
    var last := LastOf(regulars, j);
    var set_ := SetRef(ResourceSetName("s", 1), 0);
    DecodeUndoesEncode("s", 1);
    var p := Progress(Cluster(map[], map[], 0), map[], 0);
    var n := |regulars|;
    FirstPass(regulars, set_, last, n);
    var q := RunPass(p, regulars, set_, 0, Replies(last), n);
    SecondPass(q, regulars, set_, last, n);
    TimesTwo(regulars, n, i, j);
    TwoPasses(p, regulars, set_, Replies(last));
  }

  lemma LastOf(regulars: seq<Resource>, j: nat) returns (last: nat)
    requires j < |regulars|
    ensures j <= last < |regulars| && regulars[last].key == regulars[j].key
    ensures forall i :: last < i < |regulars| ==> regulars[i].key != regulars[last].key
  {
    last := |regulars| - 1;
    while regulars[last].key != regulars[j].key
      invariant j <= last < |regulars|
      invariant forall i :: last < i < |regulars| ==> regulars[i].key != regulars[j].key
      decreases last
    {
      last := last - 1;
    }
  }

  lemma TwoPasses(p: Progress, regulars: seq<Resource>, set_: SetRef, replies: (nat, nat) -> Reply)
    requires RunPass(p, regulars, set_, 0, replies, |regulars|).failures > 0
    ensures
      var q := RunPass(p, regulars, set_, 0, replies, |regulars|);
      var history := RetryLoop(p, regulars, set_, replies, 0, 0).history;
      |history| > 1 && history[0] == q.failures
      && history[1] == RunPass(q, regulars, set_, 1, replies, |regulars|).failures
  {
    hide RunPass;
    var q := RunPass(p, regulars, set_, 0, replies, |regulars|);
    assert RetryLoop(p, regulars, set_, replies, 0, 0).history
        == [q.failures] + RetryLoop(q, regulars, set_, replies, 1, q.failures).history;
  }

  /** So the failures fall from pass to pass, for every cluster and all replies, if and only if no two resources with a
      name have the same key. Those without a name fail in every pass, and do no harm. */
  lemma FallsIffNamedOnce(regulars: seq<Resource>)
    ensures NamedOnce(regulars) <==>
      forall p: Progress, set_: SetRef, replies: (nat, nat) -> Reply ::
          Falls(RetryLoop(p, regulars, set_, replies, 0, 0).history)
  {
    if NamedOnce(regulars) {
      forall p: Progress, set_: SetRef, replies: (nat, nat) -> Reply
        ensures Falls(RetryLoop(p, regulars, set_, replies, 0, 0).history)
      {
        LoopTerminates(p, regulars, set_, replies);
      }
    } else {
      var i, j :| 0 <= i < j < |regulars| && regulars[i].key == regulars[j].key && regulars[i].key.name != "";
      DuplicateKeysMayRise(regulars, i, j);
      hide RetryLoop;
    }
  }
}
