/** Several syncers, each copying its own subtree of the status to the same upstream object. */
module SyncerSubtree {
  import opened Wrappers
  import opened ApiServer
  import opened Syncer

  /** A syncer's subtree and the downstream status it copies from. */
  datatype Owner = Owner(subtree: string, source: Status)
  {
    /** Its copies write something: the source is a dictionary. */
    predicate Active() { source.Dict? }

    predicate Supplies() { source.Dict? && subtree in source.fields && source.fields[subtree] != Null }
  }

  /** A schedule says whose copy comes when; no two owners share a subtree. */
  ghost predicate DistinctOwners(schedule: seq<Owner>) {
    && (forall o :: o in schedule ==> o.subtree != "")
    && (forall o, p :: o in schedule && p in schedule && o.subtree == p.subtree ==> o == p)
  }

  /** The copies of a schedule, in order; a copy that fails leaves the status. */
  function CopyAll(dst: Status, schedule: seq<Owner>): Status {
    if schedule == [] then dst
    else
      var before := CopyAll(dst, schedule[..|schedule| - 1]);
      var o := schedule[|schedule| - 1];
      match CopyStatus(before, o.source, o.subtree) case None => before case Some(status) => status
  }

  function Fields(status: Status): map<string, Value> {
    if status.Dict? then status.fields else map[]
  }

  ghost predicate Owned(schedule: seq<Owner>, key: string) {
    exists o :: o in schedule && o.Active() && o.subtree == key
  }

  ghost predicate AnyActive(schedule: seq<Owner>) {
    exists o :: o in schedule && o.Active()
  }

  /** The status that a set of owners leaves behind, without a word about the order of their copies. */
  ghost predicate Merged(result: Status, dst: Status, schedule: seq<Owner>)
  {
    if dst.NotADict? || !AnyActive(schedule) then result == dst
    else
      && result.Dict?
      && (forall o :: o in schedule && o.Active() ==>
            && (o.subtree in result.fields <==> o.Supplies())
            && (o.Supplies() ==> result.fields[o.subtree] == o.source.fields[o.subtree]))
      && (forall key :: !Owned(schedule, key) ==>
            && (key in result.fields <==> key in Fields(dst))
            && (key in result.fields ==> result.fields[key] == Fields(dst)[key]))
  }

  lemma OwnedSnoc(front: seq<Owner>, last: Owner, key: string)
    ensures Owned(front + [last], key) <==> Owned(front, key) || (last.Active() && last.subtree == key)
    ensures AnyActive(front + [last]) <==> AnyActive(front) || last.Active()
  {
  }

  // One more copy, onto a status in which those before it are merged.
  lemma CopyMerges(dst: Status, before: Status, front: seq<Owner>, last: Owner)
    requires DistinctOwners(front + [last]) && Merged(before, dst, front)
    ensures
      var after := match CopyStatus(before, last.source, last.subtree) case None => before case Some(status) => status;
      Merged(after, dst, front + [last])
  {
    hide Owned, AnyActive;
    forall key ensures Owned(front + [last], key) <==> Owned(front, key) || (last.Active() && last.subtree == key) {
      OwnedSnoc(front, last, key);
    }
    OwnedSnoc(front, last, "");
    NoneActive(front);
  }

  lemma NoneActive(schedule: seq<Owner>)
    ensures !AnyActive(schedule) ==> forall key :: !Owned(schedule, key)
    ensures forall o :: o in schedule && o.Active() ==> AnyActive(schedule) && Owned(schedule, o.subtree)
  {
  }

  /** Whatever the order and number of the copies: each owner with a status downstream has its subtree equal to
      its source, or absent when the source lacks it, and every key nobody owns is unchanged. */
  lemma {:induction false} CopiesMerge(dst: Status, schedule: seq<Owner>)
    requires DistinctOwners(schedule)
    ensures Merged(CopyAll(dst, schedule), dst, schedule)
  {
    hide Merged, Owned, CopyStatus;
    if schedule == [] {
      NothingMerged(dst);
    } else {
      var front, last := schedule[..|schedule| - 1], schedule[|schedule| - 1];
      assert schedule == front + [last];
      CopiesMerge(dst, front);
      CopyMerges(dst, CopyAll(dst, front), front, last);
    }
  }

  lemma NothingMerged(dst: Status)
    ensures Merged(dst, dst, [])
  {
  }

  lemma MergedIsUnique(r1: Status, r2: Status, dst: Status, schedule1: seq<Owner>, schedule2: seq<Owner>)
    requires forall o :: o in schedule1 <==> o in schedule2
    requires Merged(r1, dst, schedule1) && Merged(r2, dst, schedule2)
    ensures r1 == r2
  {
    if !dst.NotADict? && AnyActive(schedule1) {
      forall key
        ensures key in r1.fields <==> key in r2.fields
        ensures key in r1.fields ==> r1.fields[key] == r2.fields[key]
      {
        assert Owned(schedule1, key) == Owned(schedule2, key);
      }
      assert r1.fields == r2.fields;
    }
  }

  /** Copies of different subtrees commute: any two schedules of the same owners end with the same status. */
  lemma CopiesCommute(dst: Status, schedule1: seq<Owner>, schedule2: seq<Owner>)
    requires DistinctOwners(schedule1)
    requires forall o :: o in schedule1 <==> o in schedule2
    ensures CopyAll(dst, schedule1) == CopyAll(dst, schedule2)
  {
    CopiesMerge(dst, schedule1);
    CopiesMerge(dst, schedule2);
    MergedIsUnique(CopyAll(dst, schedule1), CopyAll(dst, schedule2), dst, schedule1, schedule2);
  }

  /** Without a subtree there is no such freedom: the last full copy wins. */
  lemma FullCopiesDoNotCommute()
    ensures exists a: Status, b: Status ::
      CopyStatus(CopyStatus(Nil, a, "").value, b, "") != CopyStatus(CopyStatus(Nil, b, "").value, a, "")
  {
    var a, b := Dict(map[]), NotADict("");
    assert CopyStatus(CopyStatus(Nil, a, "").value, b, "") != CopyStatus(CopyStatus(Nil, b, "").value, a, "");
  }
}
