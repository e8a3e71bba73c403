/** What generateChartAssignments promises: success exactly for disjoint selections, the list that comes out, and
    independence of the order in which the robots are listed. */
module AppRolloutOrder {
  import opened Wrappers
  import opened NameOrder
  import opened AppRollout

  function RobotName(r: Robot): string { r.name }

  ghost predicate AllValid(entries: seq<RobotSpec>) {
    forall i :: 0 <= i < |entries| ==> entries[i].selector.Some? && Valid(entries[i].selector.value)
  }

  ghost predicate SelectedBy(entry: RobotSpec, r: Robot) { entry.selector.Some? && Selects(entry.selector.value, r) }

  /** No robot is selected by two entries. */
  ghost predicate DisjointSelections(entries: seq<RobotSpec>, robots: seq<Robot>) {
    forall i, j, r :: 0 <= i < j < |entries| && r in robots ==>
      !(SelectedBy(entries[i], r) && SelectedBy(entries[j], r))
  }

  /** The picks are exactly the robots selected by the first entries, once each. */
  ghost predicate PicksOf(picks: seq<Pick>, entries: seq<RobotSpec>, robots: seq<Robot>, entry: nat)
    requires entry <= |entries|
  {
    && (forall p :: p in picks <==> p.entry < entry && p.robot in robots && SelectedBy(entries[p.entry], p.robot))
    && (forall i, j :: 0 <= i < j < |picks| ==> picks[i].robot.name != picks[j].robot.name)
  }

  // ----- One entry -----

  /** The picks of one entry. */
  function Tagged(robots: seq<Robot>, entry: nat): (r: seq<Pick>)
    ensures |r| == |robots| && forall i :: 0 <= i < |robots| ==> r[i] == Pick(robots[i], entry)
  {
    seq(|robots|, i requires 0 <= i < |robots| => Pick(robots[i], entry))
  }

  lemma HasNameSnoc(picks: seq<Pick>, p: Pick, name: string)
    ensures HasName(picks + [p], name) <==> HasName(picks, name) || p.robot.name == name
  {
    var more := picks + [p];
    assert more[|picks|] == p;
    if HasName(picks, name) {
      var k :| 0 <= k < |picks| && picks[k].robot.name == name;
      assert more[k].robot.name == name;
    }
  }

  lemma RestIsDistinct(robots: seq<Robot>)
    requires Distinct(robots, RobotName) && robots != []
    ensures Distinct(robots[1..], RobotName) && robots[0] in robots
    ensures forall r :: r in robots <==> r == robots[0] || r in robots[1..]
    ensures forall r :: r in robots[1..] ==> r.name != robots[0].name
  {
    assert robots == [robots[0]] + robots[1..];
    forall r | r in robots[1..] ensures r.name != robots[0].name {
      var i :| 0 <= i < |robots[1..]| && robots[1..][i] == r;
      assert RobotName(robots[0]) != RobotName(robots[i + 1]);
    }
  }

  lemma TaggedCons(picks: seq<Pick>, robots: seq<Robot>, entry: nat)
    requires robots != []
    ensures picks + [Pick(robots[0], entry)] + Tagged(robots[1..], entry) == picks + Tagged(robots, entry)
  {
  }

  ghost predicate Meets(picks: seq<Pick>, robots: seq<Robot>) { exists r :: r in robots && HasName(picks, r.name) }

  lemma MeetsRest(picks: seq<Pick>, robots: seq<Robot>, entry: nat)
    requires Distinct(robots, RobotName) && robots != [] && !HasName(picks, robots[0].name)
    ensures Meets(picks + [Pick(robots[0], entry)], robots[1..]) <==> Meets(picks, robots)
    ensures forall r :: r in robots[1..] ==>
      (HasName(picks + [Pick(robots[0], entry)], r.name) <==> HasName(picks, r.name))
  {
    hide HasName, Distinct;
    RestIsDistinct(robots);
    var more := picks + [Pick(robots[0], entry)];
    forall r | r in robots[1..] ensures HasName(more, r.name) <==> HasName(picks, r.name) {
      HasNameSnoc(picks, Pick(robots[0], entry), r.name);
    }
  }

  /** An entry is added as a whole if none of its robots was picked before, and else one that was is named. */
  lemma {:induction false} AddAllFacts(picks: seq<Pick>, robots: seq<Robot>, entry: nat)
    requires Distinct(robots, RobotName)
    ensures
      var p := AddAll(picks, robots, entry);
      if Meets(picks, robots) then p.Overlap? && HasName(picks, p.robot) && exists r :: r in robots && r.name == p.robot
      else p == Picked(picks + Tagged(robots, entry))
    decreases |robots|
  {
    hide HasName, Distinct;
    if robots == [] {
      assert picks + Tagged(robots, entry) == picks;
    } else if HasName(picks, robots[0].name) {
      assert robots[0] in robots;
    } else {
      hide Meets;
      RestIsDistinct(robots);
      MeetsRest(picks, robots, entry);
      TaggedCons(picks, robots, entry);
      AddAllFacts(picks + [Pick(robots[0], entry)], robots[1..], entry);
    }
  }

  lemma {:induction false} FilteredIsDistinct(robots: seq<Robot>, sel: Selector)
    requires Distinct(robots, RobotName)
    ensures Distinct(Filtered(robots, sel), RobotName)
  {
    if robots != [] {
      var front, last := robots[..|robots| - 1], robots[|robots| - 1];
      FilteredIsDistinct(front, sel);
      forall r | r in Filtered(front, sel) ensures r.name != last.name {
        assert r in front;
        var i :| 0 <= i < |front| && front[i] == r;
        assert RobotName(robots[i]) != RobotName(robots[|robots| - 1]);
      }
    }
  }

  lemma SamePosition(robots: seq<Robot>, i: nat, j: nat)
    requires Distinct(robots, RobotName) && i < |robots| && j < |robots| && RobotName(robots[i]) == RobotName(robots[j])
    ensures i == j
  {
  }

  lemma SameRobot(robots: seq<Robot>, r: Robot, q: Robot)
    requires Distinct(robots, RobotName) && r in robots && q in robots && r.name == q.name
    ensures r == q
  {
    var i :| 0 <= i < |robots| && robots[i] == r;
    var j :| 0 <= j < |robots| && robots[j] == q;
    SamePosition(robots, i, j);
  }

  lemma PickedBefore(picks: seq<Pick>, entries: seq<RobotSpec>, robots: seq<Robot>, entry: nat, r: Robot)
    requires entry <= |entries| && Distinct(robots, RobotName) && PicksOf(picks, entries, robots, entry) && r in robots
    ensures HasName(picks, r.name) <==> exists i :: 0 <= i < entry && SelectedBy(entries[i], r)
  {
    hide SelectedBy;
    if HasName(picks, r.name) {
      var k :| 0 <= k < |picks| && picks[k].robot.name == r.name;
      assert picks[k] in picks;
      SameRobot(robots, r, picks[k].robot);
    }
    if i :| 0 <= i < entry && SelectedBy(entries[i], r) {
      assert Pick(r, i) in picks;
      var k :| 0 <= k < |picks| && picks[k] == Pick(r, i);
    }
  }

  /** An entry meets an earlier one exactly if both select some robot. */
  lemma EntryOverlaps(picks: seq<Pick>, entries: seq<RobotSpec>, robots: seq<Robot>, entry: nat, sel: Selector)
    requires entry < |entries| && entries[entry].selector == Some(sel)
    requires Distinct(robots, RobotName) && PicksOf(picks, entries, robots, entry)
    ensures Meets(picks, Filtered(robots, sel))
       <==> exists i, r :: 0 <= i < entry && r in robots && SelectedBy(entries[i], r) && SelectedBy(entries[entry], r)
  {
    hide HasName, PicksOf, Distinct, Selects;
    forall r | r in robots ensures HasName(picks, r.name) <==> exists i :: 0 <= i < entry && SelectedBy(entries[i], r) {
      PickedBefore(picks, entries, robots, entry, r);
    }
    forall r ensures r in Filtered(robots, sel) <==> r in robots && SelectedBy(entries[entry], r) { }
  }

  lemma EntryIsPicked(picks: seq<Pick>, entries: seq<RobotSpec>, robots: seq<Robot>, entry: nat, sel: Selector)
    requires entry < |entries| && entries[entry].selector == Some(sel)
    requires Distinct(robots, RobotName) && PicksOf(picks, entries, robots, entry)
    requires !Meets(picks, Filtered(robots, sel))
    ensures PicksOf(picks + Tagged(Filtered(robots, sel), entry), entries, robots, entry + 1)
  {
    var ms := Filtered(robots, sel);
    var tagged := Tagged(ms, entry);
    var more := picks + tagged;
    FilteredIsDistinct(robots, sel);
    forall p ensures p in tagged <==> p.entry == entry && p.robot in ms {
      if p.entry == entry && p.robot in ms {
        var i :| 0 <= i < |ms| && ms[i] == p.robot;
        assert tagged[i] == p;
      }
    }
    forall i, j | 0 <= i < j < |more| ensures more[i].robot.name != more[j].robot.name {
      if |picks| <= i {
        assert RobotName(ms[i - |picks|]) != RobotName(ms[j - |picks|]);
      } else if |picks| <= j {
        assert ms[j - |picks|] in ms && HasName(picks, picks[i].robot.name);
      }
    }
  }

  // ----- All entries -----

  /** Generation succeeds exactly if no robot is selected by two entries, and then picks every selected robot once. */
  lemma {:induction false} PicksIffDisjoint(picks: seq<Pick>, entries: seq<RobotSpec>, robots: seq<Robot>, entry: nat)
    requires entry <= |entries| && AllValid(entries) && Distinct(robots, RobotName)
    requires PicksOf(picks, entries, robots, entry) && DisjointSelections(entries[..entry], robots)
    ensures
      var p := PickFrom(picks, entries, robots, entry);
      && (p.Picked? <==> DisjointSelections(entries, robots))
      && (p.Picked? ==> PicksOf(p.picks, entries, robots, |entries|))
      && (!p.Picked? ==> p.Overlap?)
    decreases |entries| - entry
  {
    hide HasName, Distinct, PicksOf, SelectedBy, AddAll, Filtered, Valid;
    if entry == |entries| {
      assert entries[..entry] == entries;
    } else {
      var sel := entries[entry].selector.value;
      var ms := Filtered(robots, sel);
      FilteredIsDistinct(robots, sel);
      AddAllFacts(picks, ms, entry);
      EntryOverlaps(picks, entries, robots, entry, sel);
      hide Meets;
      if !Meets(picks, ms) {
        EntryIsPicked(picks, entries, robots, entry, sel);
        assert DisjointSelections(entries[..entry + 1], robots);
        PicksIffDisjoint(picks + Tagged(ms, entry), entries, robots, entry + 1);
      }
    }
  }

  // ----- The names of assignments -----

  lemma Cancel(front: string, a: string, b: string)
    requires front + a == front + b
    ensures a == b
  {
    assert a == (front + a)[|front|..] && b == (front + b)[|front|..];
  }

  /** Within a rollout, different robots have assignments of different names, and none has that of the cloud. */
  lemma NamesDiffer(rollout: string, x: string, y: string)
    ensures AssignmentName(rollout, "robot", x) == AssignmentName(rollout, "robot", y) ==> x == y
    ensures AssignmentName(rollout, "robot", x) != AssignmentName(rollout, "cloud", "")
  {
    var front := rollout + "-";
    var a := if x != "" then "robot-" + x else "robot";
    var b := if y != "" then "robot-" + y else "robot";
    assert AssignmentName(rollout, "robot", x) == front + a && AssignmentName(rollout, "robot", y) == front + b;
    assert a[0] == 'r';
    if a == b {
      assert x == (if x != "" then a[6..] else "") && y == (if y != "" then b[6..] else "");
    } else if front + a == front + b {
      Cancel(front, a, b);
    }
    if front + a == front + "cloud" {
      Cancel(front, a, "cloud");
    }
  }

  /** The assignments before they are sorted. */
  function Unsorted(picks: seq<Pick>, app: App, rollout: Rollout, tenant: Tenant, base: Values): seq<Assignment>
    requires EntriesOf(picks, rollout)
  {
    (if Given(app.robot) then RobotAssignments(picks, app, rollout, tenant, base) else [])
    + (if Given(app.cloud) then [CloudAssignment(app, rollout, tenant, base, SortBy(Names(picks), Self))] else [])
  }

  lemma NamesAreDistinct(picks: seq<Pick>, app: App, rollout: Rollout, tenant: Tenant, base: Values)
    requires EntriesOf(picks, rollout)
    requires forall i, j :: 0 <= i < j < |picks| ==> picks[i].robot.name != picks[j].robot.name
    ensures Distinct(Unsorted(picks, app, rollout, tenant, base), NameOf)
    ensures Distinct(Names(picks), Self)
  {
    hide AssignmentName, CloudAssignment, SortBy, Merge;
    var all := Unsorted(picks, app, rollout, tenant, base);
    forall i, j | 0 <= i < j < |all| ensures all[i].name != all[j].name {
      if j < |picks| && Given(app.robot) {
        NamesDiffer(rollout.name, picks[i].robot.name, picks[j].robot.name);
      } else {
        NamesDiffer(rollout.name, picks[i].robot.name, "");
        assert all[j].name == AssignmentName(rollout.name, "cloud", "") by {
          CloudName(app, rollout, tenant, base, SortBy(Names(picks), Self));
        }
      }
    }
  }

  lemma CloudName(app: App, rollout: Rollout, tenant: Tenant, base: Values, robots: seq<string>)
    ensures CloudAssignment(app, rollout, tenant, base, robots).name == AssignmentName(rollout.name, "cloud", "")
  {
  }

  // ----- The list -----

  ghost predicate IsSelected(entries: seq<RobotSpec>, robots: seq<Robot>, name: string) {
    exists i, r :: 0 <= i < |entries| && r in robots && SelectedBy(entries[i], r) && r.name == name
  }

  /** The assignment is that of the cloud, which names exactly the selected robots in order, or that of a selected
      robot, with the values and version of the entry that selected it. */
  ghost predicate IsWanted(a: Assignment, app: App, rollout: Rollout, tenant: Tenant, robots: seq<Robot>,
                           base: Values) {
    || (Given(app.robot) && exists i, r ::
          && 0 <= i < |rollout.robots| && r in robots && SelectedBy(rollout.robots[i], r)
          && a == RobotAssignment(r, app, rollout, tenant, rollout.robots[i], base))
    || (Given(app.cloud) && exists names ::
          && Increasing(names, Self) && (forall n :: n in names <==> IsSelected(rollout.robots, robots, n))
          && a == CloudAssignment(app, rollout, tenant, base, names))
  }

  lemma PickedNames(picks: seq<Pick>, entries: seq<RobotSpec>, robots: seq<Robot>)
    requires PicksOf(picks, entries, robots, |entries|)
    ensures
      var names := SortBy(Names(picks), Self);
      Increasing(names, Self) && forall n :: n in names <==> IsSelected(entries, robots, n)
  {
    hide SelectedBy;
    assert Distinct(Names(picks), Self);
    SortBySorts(Names(picks), Self);
    forall n ensures n in Names(picks) <==> IsSelected(entries, robots, n) {
      if n in Names(picks) {
        var k :| 0 <= k < |picks| && Names(picks)[k] == n;
        assert picks[k] in picks;
      }
      if i, r :| 0 <= i < |entries| && r in robots && SelectedBy(entries[i], r) && r.name == n {
        assert Pick(r, i) in picks;
        var k :| 0 <= k < |picks| && picks[k] == Pick(r, i);
        assert Names(picks)[k] == n;
      }
    }
  }

  lemma PickedRobots(picks: seq<Pick>, app: App, rollout: Rollout, tenant: Tenant, robots: seq<Robot>, base: Values,
                     a: Assignment)
    requires PicksOf(picks, rollout.robots, robots, |rollout.robots|) && EntriesOf(picks, rollout)
    ensures a in RobotAssignments(picks, app, rollout, tenant, base) <==>
      exists i, r ::
        && 0 <= i < |rollout.robots| && r in robots && SelectedBy(rollout.robots[i], r)
        && a == RobotAssignment(r, app, rollout, tenant, rollout.robots[i], base)
  {
    hide SelectedBy, RobotAssignment;
    var all := RobotAssignments(picks, app, rollout, tenant, base);
    if a in all {
      var k :| 0 <= k < |all| && all[k] == a;
      assert picks[k] in picks;
    }
    if i, r :|
      && 0 <= i < |rollout.robots| && r in robots && SelectedBy(rollout.robots[i], r)
      && a == RobotAssignment(r, app, rollout, tenant, rollout.robots[i], base)
    {
      assert Pick(r, i) in picks;
      var k :| 0 <= k < |picks| && picks[k] == Pick(r, i);
      assert all[k] == a;
    }
  }

  lemma WantedList(picks: seq<Pick>, app: App, rollout: Rollout, tenant: Tenant, robots: seq<Robot>, base: Values)
    requires PicksOf(picks, rollout.robots, robots, |rollout.robots|) && EntriesOf(picks, rollout)
    ensures
      var list := Wanted(picks, app, rollout, tenant, base);
      Increasing(list, NameOf) && forall a :: a in list <==> IsWanted(a, app, rollout, tenant, robots, base)
  {
    hide SelectedBy, RobotAssignment, CloudAssignment, IsSelected, SortBy, RobotAssignments, Increasing, Distinct;
    var names := SortBy(Names(picks), Self);
    NamesAreDistinct(picks, app, rollout, tenant, base);
    SortBySorts(Unsorted(picks, app, rollout, tenant, base), NameOf);
    PickedNames(picks, rollout.robots, robots);
    forall a
      ensures a in Unsorted(picks, app, rollout, tenant, base) <==> IsWanted(a, app, rollout, tenant, robots, base)
    {
      PickedRobots(picks, app, rollout, tenant, robots, base, a);
      forall more | Increasing(more, Self) && forall n :: n in more <==> IsSelected(rollout.robots, robots, n)
        ensures more == names
      {
        IncreasingIsUnique(more, names, Self);
      }
    }
  }

  /** For rollouts with valid selectors and robots of different names, generation succeeds exactly if no robot is
      selected twice; a failure names a robot that is. The list is strictly sorted by name and holds exactly the
      wanted assignments. */
  lemma GenerateIffDisjoint(app: App, rollout: Rollout, tenant: Tenant, robots: seq<Robot>, base: Values)
    requires AllValid(rollout.robots) && Distinct(robots, RobotName)
    ensures
      var g := Generate(app, rollout, tenant, robots, base);
      && (g.Assignments? <==> DisjointSelections(rollout.robots, robots))
      && (g.Failed? ==> g.why.Overlap?)
      && (g.Assignments? ==>
            && Increasing(g.list, NameOf)
            && forall a :: a in g.list <==> IsWanted(a, app, rollout, tenant, robots, base))
  {
    hide DisjointSelections, Distinct, IsWanted, Increasing, Wanted, PickFrom;
    assert DisjointSelections(rollout.robots[..0], robots) by { NoEntriesAreDisjoint(rollout.robots, robots); }
    PicksIffDisjoint([], rollout.robots, robots, 0);
    PickFromEntries([], robots, 0, rollout);
    var p := PickFrom([], rollout.robots, robots, 0);
    if p.Picked? {
      WantedList(p.picks, app, rollout, tenant, robots, base);
    }
  }

  lemma NoEntriesAreDisjoint(entries: seq<RobotSpec>, robots: seq<Robot>)
    ensures DisjointSelections(entries[..0], robots)
  {
  }

  // ----- The order of the robots -----

  /** Two lists of the same robots, whatever the order. */
  ghost predicate SameRobots(robots: seq<Robot>, others: seq<Robot>) {
    Distinct(robots, RobotName) && Distinct(others, RobotName) && forall r :: r in robots <==> r in others
  }

  lemma {:induction false} PickedInAnyOrder(
    picks: seq<Pick>, more: seq<Pick>, entries: seq<RobotSpec>, robots: seq<Robot>, others: seq<Robot>, entry: nat)
    requires entry <= |entries| && SameRobots(robots, others)
    requires PicksOf(picks, entries, robots, entry) && PicksOf(more, entries, others, entry)
    ensures
      var p, q := PickFrom(picks, entries, robots, entry), PickFrom(more, entries, others, entry);
      && (p == q || (p.Overlap? && q.Overlap?) || (p.Picked? && q.Picked?))
      && (p.Picked? ==> PicksOf(p.picks, entries, robots, |entries|) && PicksOf(q.picks, entries, others, |entries|))
    decreases |entries| - entry
  {
    hide HasName, Distinct, PicksOf, SelectedBy, AddAll, Filtered, Valid, Meets;
    if entry < |entries| && entries[entry].selector.Some? && Valid(entries[entry].selector.value) {
      var sel := entries[entry].selector.value;
      FilteredIsDistinct(robots, sel);
      FilteredIsDistinct(others, sel);
      AddAllFacts(picks, Filtered(robots, sel), entry);
      AddAllFacts(more, Filtered(others, sel), entry);
      EntryOverlaps(picks, entries, robots, entry, sel);
      EntryOverlaps(more, entries, others, entry, sel);
      if !Meets(picks, Filtered(robots, sel)) {
        EntryIsPicked(picks, entries, robots, entry, sel);
        EntryIsPicked(more, entries, others, entry, sel);
        PickedInAnyOrder(picks + Tagged(Filtered(robots, sel), entry), more + Tagged(Filtered(others, sel), entry),
                         entries, robots, others, entry + 1);
      }
    }
  }

  lemma WantedInAnyOrder(a: Assignment, app: App, rollout: Rollout, tenant: Tenant, robots: seq<Robot>,
                         others: seq<Robot>, base: Values)
    requires SameRobots(robots, others)
    ensures IsWanted(a, app, rollout, tenant, robots, base) <==> IsWanted(a, app, rollout, tenant, others, base)
  {
    hide RobotAssignment, CloudAssignment, Increasing, SelectedBy, Distinct;
    forall n ensures IsSelected(rollout.robots, robots, n) <==> IsSelected(rollout.robots, others, n) { }
  }

  /** The order in which the robots are listed never changes the outcome, be it a list or a failure of any kind,
      except for the robot that an overlap names. */
  lemma GenerateInAnyOrder(app: App, rollout: Rollout, tenant: Tenant, robots: seq<Robot>, others: seq<Robot>,
                           base: Values)
    requires SameRobots(robots, others)
    ensures
      var g, h := Generate(app, rollout, tenant, robots, base), Generate(app, rollout, tenant, others, base);
      g == h || (g.Failed? && h.Failed? && g.why.Overlap? && h.why.Overlap?)
  {
    hide Distinct, IsWanted, Increasing, Wanted, PickFrom;
    PickedInAnyOrder([], [], rollout.robots, robots, others, 0);
    PickFromEntries([], robots, 0, rollout);
    PickFromEntries([], others, 0, rollout);
    var p, q := PickFrom([], rollout.robots, robots, 0), PickFrom([], rollout.robots, others, 0);
    if p.Picked? {
      WantedList(p.picks, app, rollout, tenant, robots, base);
      WantedList(q.picks, app, rollout, tenant, others, base);
      var list, more := Wanted(p.picks, app, rollout, tenant, base), Wanted(q.picks, app, rollout, tenant, base);
      forall a ensures a in list <==> a in more {
        WantedInAnyOrder(a, app, rollout, tenant, robots, others, base);
      }
      IncreasingIsUnique(list, more, NameOf);
    }
  }

  /** The exception is real: with two entries that select any robot, the one listed first is named. */
  lemma OverlapNamesTheFirst(app: App, tenant: Tenant, base: Values, a: Robot, b: Robot, rollout: Rollout)
    requires a.name != b.name
    requires rollout.robots
        == [RobotSpec(Some(Selector(Some(true), None)), map[], ""),
            RobotSpec(Some(Selector(Some(true), None)), map[], "")]
    ensures SameRobots([a, b], [b, a])
    ensures Generate(app, rollout, tenant, [a, b], base) == Failed(Overlap(a.name))
    ensures Generate(app, rollout, tenant, [b, a], base) == Failed(Overlap(b.name))
  {
    var any := Selector(Some(true), None);
    forall r ensures r in [a, b] <==> r in [b, a] { }
    TwiceAny(rollout.robots, a, b);
    TwiceAny(rollout.robots, b, a);
  }

  lemma TwiceAny(entries: seq<RobotSpec>, a: Robot, b: Robot)
    requires a.name != b.name
    requires entries == [RobotSpec(Some(Selector(Some(true), None)), map[], ""),
                         RobotSpec(Some(Selector(Some(true), None)), map[], "")]
    ensures PickFrom([], entries, [a, b], 0) == Overlap(a.name)
  {
    var any := Selector(Some(true), None);
    AllFiltered([a, b], any);
    assert [a, b][1..] == [b] && [b][1..] == [];
    assert [] + [Pick(a, 0)] == [Pick(a, 0)] && [Pick(a, 0)] + [Pick(b, 0)] == [Pick(a, 0), Pick(b, 0)];
    assert AddAll([Pick(a, 0), Pick(b, 0)], [], 0) == Picked([Pick(a, 0), Pick(b, 0)]);
    assert AddAll([Pick(a, 0)], [b], 0) == Picked([Pick(a, 0), Pick(b, 0)]);
    assert AddAll([], [a, b], 0) == Picked([Pick(a, 0), Pick(b, 0)]);
    assert [Pick(a, 0), Pick(b, 0)][0].robot.name == a.name;
    assert PickFrom([Pick(a, 0), Pick(b, 0)], entries, [a, b], 1) == Overlap(a.name);
  }

  // ----- The robot that an overlap names -----

  /** The robots that the entry shares with an earlier one. */
  ghost predicate Shared(entries: seq<RobotSpec>, robots: seq<Robot>, entry: nat, r: Robot)
    requires entry < |entries|
  {
    r in robots && SelectedBy(entries[entry], r) && exists i :: 0 <= i < entry && SelectedBy(entries[i], r)
  }

  /** The first entry that shares a robot, with valid entries up to it. */
  ghost predicate FirstOverlap(entries: seq<RobotSpec>, robots: seq<Robot>, entry: nat) {
    && entry < |entries|
    && (forall i :: 0 <= i <= entry ==> entries[i].selector.Some? && Valid(entries[i].selector.value))
    && (exists r :: Shared(entries, robots, entry, r))
    && (forall i, r :: 0 <= i < entry ==> !Shared(entries, robots, i, r))
  }

  lemma MeetsIffShared(picks: seq<Pick>, entries: seq<RobotSpec>, robots: seq<Robot>, entry: nat, sel: Selector)
    requires entry < |entries| && entries[entry].selector == Some(sel)
    requires Distinct(robots, RobotName) && PicksOf(picks, entries, robots, entry)
    ensures Meets(picks, Filtered(robots, sel)) <==> exists r :: Shared(entries, robots, entry, r)
  {
    hide Meets, PicksOf, Distinct, SelectedBy, Filtered;
    EntryOverlaps(picks, entries, robots, entry, sel);
    if r :| Shared(entries, robots, entry, r) {
      var i :| 0 <= i < entry && SelectedBy(entries[i], r);
    }
    if i, r :| 0 <= i < entry && r in robots && SelectedBy(entries[i], r) && SelectedBy(entries[entry], r) {
      assert Shared(entries, robots, entry, r);
    }
  }

  // Up to the first overlap everything is picked.
  lemma {:induction false} PicksReach(picks: seq<Pick>, entries: seq<RobotSpec>, robots: seq<Robot>, entry: nat,
                                      last: nat)
    returns (more: seq<Pick>)
    requires entry <= last < |entries| && FirstOverlap(entries, robots, last)
    requires Distinct(robots, RobotName) && PicksOf(picks, entries, robots, entry)
    ensures PicksOf(more, entries, robots, last)
    ensures PickFrom(picks, entries, robots, entry) == PickFrom(more, entries, robots, last)
    decreases last - entry
  {
    hide Meets, PicksOf, Distinct, Filtered, AddAll, Valid;
    if entry == last {
      more := picks;
    } else {
      var sel := entries[entry].selector.value;
      FilteredIsDistinct(robots, sel);
      MeetsIffShared(picks, entries, robots, entry, sel);
      AddAllFacts(picks, Filtered(robots, sel), entry);
      EntryIsPicked(picks, entries, robots, entry, sel);
      more := PicksReach(picks + Tagged(Filtered(robots, sel), entry), entries, robots, entry + 1, last);
    }
  }

  lemma NothingPicked(entries: seq<RobotSpec>, robots: seq<Robot>)
    ensures PicksOf([], entries, robots, 0)
  {
  }

  /** An overlap names a robot that the first overlapping entry shares with an earlier one. */
  lemma OverlapIsShared(entries: seq<RobotSpec>, robots: seq<Robot>, entry: nat)
    requires FirstOverlap(entries, robots, entry) && Distinct(robots, RobotName)
    ensures
      var p := PickFrom([], entries, robots, 0);
      p.Overlap? && exists r :: Shared(entries, robots, entry, r) && r.name == p.robot
  {
    hide Meets, Distinct, Filtered, AddAll, Valid, HasName, SelectedBy;
    var picks := PicksReach([], entries, robots, 0, entry);
    var sel := entries[entry].selector.value;
    FilteredIsDistinct(robots, sel);
    MeetsIffShared(picks, entries, robots, entry, sel);
    AddAllFacts(picks, Filtered(robots, sel), entry);
    var p := AddAll(picks, Filtered(robots, sel), entry);
    var r :| r in Filtered(robots, sel) && r.name == p.robot;
    SelectedIsFiltered(robots, entries[entry], sel, r);
    PickedBefore(picks, entries, robots, entry, r);
    assert Shared(entries, robots, entry, r);
  }

  lemma SelectedIsFiltered(robots: seq<Robot>, entry: RobotSpec, sel: Selector, r: Robot)
    requires entry.selector == Some(sel)
    ensures r in Filtered(robots, sel) <==> r in robots && SelectedBy(entry, r)
  {
  }

  lemma {:induction false} FilteredFirst(robots: seq<Robot>, sel: Selector)
    requires robots != [] && Selects(sel, robots[0])
    ensures Filtered(robots, sel) != [] && Filtered(robots, sel)[0] == robots[0]
  {
    hide Selects;
    if |robots| > 1 {
      assert robots[..|robots| - 1][0] == robots[0];
      FilteredFirst(robots[..|robots| - 1], sel);
    } else {
      assert Filtered(robots[..0], sel) == [];
    }
  }

  /** A shared robot that is listed first is the one that is named. */
  lemma FirstListedIsNamed(entries: seq<RobotSpec>, robots: seq<Robot>, entry: nat)
    requires FirstOverlap(entries, robots, entry) && Distinct(robots, RobotName)
    requires robots != [] && Shared(entries, robots, entry, robots[0])
    ensures PickFrom([], entries, robots, 0) == Overlap(robots[0].name)
  {
    hide Distinct, Filtered, Valid, HasName, PicksOf;
    NothingPicked(entries, robots);
    var picks := PicksReach([], entries, robots, 0, entry);
    var sel := entries[entry].selector.value;
    FilteredFirst(robots, sel);
    PickedBefore(picks, entries, robots, entry, robots[0]);
  }

  lemma Fronted(robots: seq<Robot>, r: Robot) returns (others: seq<Robot>)
    requires Distinct(robots, RobotName) && r in robots
    ensures SameRobots(robots, others) && others != [] && others[0] == r
  {
    var i :| 0 <= i < |robots| && robots[i] == r;
    others := [r] + (robots[..i] + robots[i + 1..]);
    assert robots == robots[..i] + [r] + robots[i + 1..];
    forall a, b | 0 <= a < b < |others| ensures RobotName(others[a]) != RobotName(others[b]) {
      var x, y := if a == 0 then i else if a <= i then a - 1 else a, if b <= i then b - 1 else b;
      assert others[a] == robots[x] && others[b] == robots[y] && x != y;
      if x < y {
        assert RobotName(robots[x]) != RobotName(robots[y]);
      } else {
        assert RobotName(robots[y]) != RobotName(robots[x]);
      }
    }
  }

  lemma OverlapInAnyOrder(entries: seq<RobotSpec>, robots: seq<Robot>, others: seq<Robot>, entry: nat)
    requires SameRobots(robots, others) && FirstOverlap(entries, robots, entry)
    ensures FirstOverlap(entries, others, entry)
    ensures forall r :: Shared(entries, robots, entry, r) <==> Shared(entries, others, entry, r)
  {
    hide Distinct, SelectedBy, Valid;
    forall i, r | 0 <= i <= entry ensures Shared(entries, robots, i, r) <==> Shared(entries, others, i, r) { }
  }

  // Whatever the order, a shared robot is named; and each of them is, in some order.
  lemma OrdersNameShared(app: App, rollout: Rollout, tenant: Tenant, robots: seq<Robot>, others: seq<Robot>,
                         base: Values, entry: nat)
    returns (r: Robot)
    requires entry < |rollout.robots| && FirstOverlap(rollout.robots, robots, entry) && SameRobots(robots, others)
    ensures Shared(rollout.robots, robots, entry, r)
    ensures Generate(app, rollout, tenant, others, base) == Failed(Overlap(r.name))
  {
    hide FirstOverlap, Distinct, Shared, Wanted, PickFrom, HasName;
    var entries := rollout.robots;
    OverlapInAnyOrder(entries, robots, others, entry);
    OverlapIsShared(entries, others, entry);
    var p := PickFrom([], entries, others, 0);
    r :| Shared(entries, others, entry, r) && r.name == p.robot;
  }

  lemma SharedIsNamed(app: App, rollout: Rollout, tenant: Tenant, robots: seq<Robot>, base: Values, entry: nat,
                      r: Robot)
    returns (others: seq<Robot>)
    requires entry < |rollout.robots| && FirstOverlap(rollout.robots, robots, entry) && Distinct(robots, RobotName)
    requires Shared(rollout.robots, robots, entry, r)
    ensures SameRobots(robots, others) && Generate(app, rollout, tenant, others, base) == Failed(Overlap(r.name))
  {
    hide FirstOverlap, Distinct, Shared, Wanted, PickFrom, HasName;
    SharedIsListed(rollout.robots, robots, entry, r);
    others := Fronted(robots, r);
    OverlapInAnyOrder(rollout.robots, robots, others, entry);
    FirstListedIsNamed(rollout.robots, others, entry);
  }

  /** Over all orders of the robots, the ones that are named are exactly those that the first overlapping entry shares
      with earlier entries. */
  lemma NamedAreShared(app: App, rollout: Rollout, tenant: Tenant, robots: seq<Robot>, base: Values, entry: nat,
                       n: string)
    requires entry < |rollout.robots| && FirstOverlap(rollout.robots, robots, entry) && Distinct(robots, RobotName)
    ensures (exists others :: SameRobots(robots, others)
                              && Generate(app, rollout, tenant, others, base) == Failed(Overlap(n)))
       <==> exists r :: Shared(rollout.robots, robots, entry, r) && r.name == n
  {
    hide FirstOverlap, Distinct, Shared, Wanted, PickFrom, SameRobots, Generate;
    if others :| SameRobots(robots, others) && Generate(app, rollout, tenant, others, base) == Failed(Overlap(n)) {
      var r := OrdersNameShared(app, rollout, tenant, robots, others, base, entry);
    }
    if r :| Shared(rollout.robots, robots, entry, r) && r.name == n {
      var others := SharedIsNamed(app, rollout, tenant, robots, base, entry, r);
    }
  }

  /** So the outcome is the same in every order if and only if that is one robot. */
  lemma SameOutcomeIffOneShared(app: App, rollout: Rollout, tenant: Tenant, robots: seq<Robot>, base: Values,
                                entry: nat)
    requires entry < |rollout.robots| && FirstOverlap(rollout.robots, robots, entry) && Distinct(robots, RobotName)
    ensures (forall others :: SameRobots(robots, others) ==>
              Generate(app, rollout, tenant, others, base) == Generate(app, rollout, tenant, robots, base))
       <==> forall q, r :: Shared(rollout.robots, robots, entry, q) && Shared(rollout.robots, robots, entry, r) ==>
         q == r
  {
    hide FirstOverlap, Distinct, Shared, Wanted, PickFrom, SameRobots, Generate;
    var entries := rollout.robots;
    SameOrder(robots);
    var first := OrdersNameShared(app, rollout, tenant, robots, robots, base, entry);
    if forall q, r :: Shared(entries, robots, entry, q) && Shared(entries, robots, entry, r) ==> q == r {
      forall others | SameRobots(robots, others)
        ensures Generate(app, rollout, tenant, others, base) == Generate(app, rollout, tenant, robots, base)
      {
        var r := OrdersNameShared(app, rollout, tenant, robots, others, base, entry);
      }
    } else {
      var q, r :| Shared(entries, robots, entry, q) && Shared(entries, robots, entry, r) && q != r;
      SharedIsListed(entries, robots, entry, q);
      SharedIsListed(entries, robots, entry, r);
      var one := SharedIsNamed(app, rollout, tenant, robots, base, entry, q);
      var other := SharedIsNamed(app, rollout, tenant, robots, base, entry, r);
      OtherRobotsName(robots, q, r);
    }
  }

  lemma OtherRobotsName(robots: seq<Robot>, q: Robot, r: Robot)
    requires Distinct(robots, RobotName) && q in robots && r in robots && q != r
    ensures q.name != r.name
  {
    hide Distinct;
    if q.name == r.name { SameRobot(robots, q, r); }
  }

  lemma SharedIsListed(entries: seq<RobotSpec>, robots: seq<Robot>, entry: nat, r: Robot)
    requires entry < |entries| && Shared(entries, robots, entry, r)
    ensures r in robots
  {
  }

  lemma SameOrder(robots: seq<Robot>)
    requires Distinct(robots, RobotName)
    ensures SameRobots(robots, robots)
  {
  }

  // ----- What an assignment says -----

  function At(v: Values, k: string): Option<Value> { if k in v then Some(v[k]) else None }

  /** A merge overrides key by key; only two tables are mixed. */
  lemma MergeAt(dest: Values, src: Values, k: string)
    ensures
      var m := At(Merge(dest, src), k);
      if k !in src then m == At(dest, k)
      else if k in dest && dest[k].Table? && src[k].Table? then m == Some(Merged(dest[k], src[k]))
      else m == Some(src[k])
  {
  }

  const TENANT_KEYS := ["tenant", "tenant_domain", "tenant_namespaces", "tenant_main_namespace"]

  /** An assignment for a robot goes to its cluster and carries its name as a label. It has the rollout's labels and
      annotations, without the one of kubectl. The entry's version wins over the app's. Its values are the entry's
      over the base values, and over both the robot itself and then the tenant. */
  lemma RobotAssignmentSays(robot: Robot, app: App, rollout: Rollout, tenant: Tenant, spec: RobotSpec, base: Values,
                            k: string)
    ensures
      var a := RobotAssignment(robot, app, rollout, tenant, spec, base);
      && a.clusterName == robot.name && a.namespace == rollout.namespace
      && ROBOT_NAME in a.labels && a.labels[ROBOT_NAME] == robot.name
         && a.labels - {ROBOT_NAME} == rollout.labels - {ROBOT_NAME}
      && LAST_APPLIED !in a.annotations && a.annotations == rollout.annotations - {LAST_APPLIED}
      && (spec.version != "" ==> a.chart.version == spec.version)
      && (spec.version == "" && app.robot.name != "" ==> a.chart.version == app.version)
      && a.chart.name == app.robot.name && a.chart.inline == app.robot.inline
      && (tenant.name != "" && k in TENANT_KEYS ==> At(a.chart.values, k) == At(TenantValues(tenant), k) != None)
      && (k !in TENANT_KEYS || tenant.name == "" ==>
            At(a.chart.values, k) ==
              if k == "robot" then Some(OneRobot(robot.name))
              else if k in spec.values && !(k in base && base[k].Table? && spec.values[k].Table?)
              then Some(spec.values[k])
              else if k in spec.values then Some(Merged(base[k], spec.values[k]))
              else At(base, k))
  {
    hide Merge;
    var v1 := Merge(map[], base);
    var v2 := Merge(v1, spec.values);
    var v3 := Merge(v2, map["robot" := OneRobot(robot.name)]);
    MergeAt(map[], base, k);
    MergeAt(v1, spec.values, k);
    MergeAt(v2, map["robot" := OneRobot(robot.name)], k);
    MergeAt(v3, TenantValues(tenant), k);
    assert k in TENANT_KEYS <==>
      k == "tenant" || k == "tenant_domain" || k == "tenant_namespaces" || k == "tenant_main_namespace";
  }

  /** The assignment for the cloud is given the list of the selected robots, whatever the rollout's values say. */
  lemma CloudAssignmentSays(app: App, rollout: Rollout, tenant: Tenant, base: Values, robots: seq<string>)
    ensures
      var a := CloudAssignment(app, rollout, tenant, base, robots);
      && a.clusterName == "cloud" && a.labels == rollout.labels && a.annotations == rollout.annotations - {LAST_APPLIED}
      && a.chart.name == app.cloud.name && a.chart.inline == app.cloud.inline
      && At(a.chart.values, "robots") == Some(RobotList(robots))
      && (tenant.name != "" ==> At(a.chart.values, "tenant_gateway") == Some(Scalar(tenant.gateway)))
  {
    hide Merge;
    var gateway := if tenant.name == "" then map[] else map["tenant_gateway" := Scalar(tenant.gateway)];
    var v2 := Merge(Merge(map[], base), rollout.cloudValues);
    var v3 := Merge(v2, map["robots" := RobotList(robots)]);
    var v4 := Merge(v3, gateway);
    MergeAt(v2, map["robots" := RobotList(robots)], "robots");
    MergeAt(v3, gateway, "robots");
    MergeAt(v3, gateway, "tenant_gateway");
    MergeAt(v4, TenantValues(tenant), "robots");
    MergeAt(v4, TenantValues(tenant), "tenant_gateway");
  }

  /** In one namespace, different rollouts have apps in different namespaces. */
  lemma AppNamespacesDiffer(namespace: string, x: string, y: string)
    ensures AppNamespace(namespace, x) == AppNamespace(namespace, y) ==> x == y
  {
    var front := if namespace == "default" then "app-" else namespace + "-app-";
    assert AppNamespace(namespace, x) == front + x && AppNamespace(namespace, y) == front + y;
    if front + x == front + y {
      Cancel(front, x, y);
    }
  }

  /** A separator between dashes. */
  ghost predicate Dashed(mid: string) {
    |mid| > 1 && forall m :: 0 <= m < |mid| ==> (mid[m] == '-' <==> m == 0 || m == |mid| - 1)
  }

  /** One name goes on where the other one has its separator. */
  predicate Continues(a: string, b: string, mid: string)
    requires |mid| > 0
  {
    b == a + mid[..|mid| - 1] || a + mid <= b
  }

  // A name that can be split in two ways: the longer first part continues the shorter one.
  lemma SplitTwice(a: string, mid: string, x: string, b: string, rest: string)
    requires Dashed(mid) && rest != "" && rest[0] == '-' && |a| < |b|
    requires a + mid + x == b + rest
    ensures Continues(a, b, mid)
  {
    var n := b + rest;
    assert n[..|a|] == a && n[..|b|] == b && n[|b|] == '-';
    assert (a + mid)[..] == n[..|a| + |mid|];
    if |b| < |a| + |mid| {
      assert n[|b|] == mid[|b| - |a|];
      assert b == n[..|a| + |mid| - 1] == a + mid[..|mid| - 1];
    } else {
      assert b[..|a| + |mid|] == a + mid;
    }
  }

  ghost predicate NamesAssignment(rollout: string, n: string) {
    n == AssignmentName(rollout, "cloud", "") || exists x :: n == AssignmentName(rollout, "robot", x)
  }

  lemma SharedName(a: string, b: string, n: string)
    requires a != b && |a| <= |b| && NamesAssignment(a, n) && NamesAssignment(b, n)
    ensures Continues(a, b, "-robot-")
  {
    var ra := NameRest(a, n);
    var rb := NameRest(b, n);
    assert n[..|a|] == a && n[..|b|] == b;
    assert |a| < |b|;
    assert ra == "-robot-" + ra[7..];
    assert a + "-robot-" + ra[7..] == b + rb;
    SplitTwice(a, "-robot-", ra[7..], b, rb);
  }

  lemma NameRest(rollout: string, n: string) returns (rest: string)
    requires NamesAssignment(rollout, n)
    ensures n == rollout + rest && |rest| >= 6 && rest[0] == '-' && (|rest| > 6 ==> rest[..7] == "-robot-")
  {
    if n == AssignmentName(rollout, "cloud", "") {
      rest := "-cloud";
      assert n == rollout + rest;
    } else {
      var x :| n == AssignmentName(rollout, "robot", x);
      rest := if x == "" then "-robot" else "-robot-" + x;
      assert n == rollout + rest;
    }
  }

  lemma RobotNameIs(rollout: string, x: string)
    requires x != ""
    ensures AssignmentName(rollout, "robot", x) == rollout + "-robot-" + x
  {
    assert (rollout + "-" + "robot") + "-" == rollout + "-robot-";
  }

  // The cloud assignment of the longer name can be one of a robot of the shorter name.
  lemma ContinuedNameIsShared(a: string, b: string) returns (n: string)
    requires Continues(a, b, "-robot-")
    ensures NamesAssignment(a, n) && NamesAssignment(b, n)
  {
    n := AssignmentName(b, "cloud", "");
    assert n == b + "-cloud";
    var x := if b == a + "-robot" then "cloud" else b[|a| + 7..] + "-cloud";
    RobotNameIs(a, x);
    assert "-robot-"[..6] == "-robot";
    if b == a + "-robot" {
      assert (a + "-robot") + "-cloud" == a + "-robot-" + "cloud";
    } else {
      assert b == a + "-robot-" + b[|a| + 7..];
      assert b + "-cloud" == a + "-robot-" + x;
    }
  }

  /** Two rollouts of a namespace can have assignments of one name if and only if the name of one of them is that of the
      other with "-robot" behind it, or begins with that and a dash. */
  lemma AssignmentsCollideIff(a: string, b: string)
    requires a != b
    ensures (exists n :: NamesAssignment(a, n) && NamesAssignment(b, n)) <==>
      Continues(a, b, "-robot-") || Continues(b, a, "-robot-")
  {
    hide NamesAssignment;
    if n :| NamesAssignment(a, n) && NamesAssignment(b, n) {
      if |a| <= |b| { SharedName(a, b, n); } else { SharedName(b, a, n); }
    }
    if Continues(a, b, "-robot-") {
      var n := ContinuedNameIsShared(a, b);
    } else if Continues(b, a, "-robot-") {
      var n := ContinuedNameIsShared(b, a);
    }
  }

  /** What stands before "-app-" in the app namespaces of a namespace, with a dash in front for all but the default. */
  function Lead(namespace: string): string { if namespace == "default" then "" else "-" + namespace }

  lemma LeadIsBefore(namespace: string, x: string)
    ensures "-" + AppNamespace(namespace, x) == Lead(namespace) + "-app-" + x
  {
    if namespace == "default" {
      assert "-" + ("app-" + x) == "" + "-app-" + x;
    } else {
      assert "-" + (namespace + "-app-" + x) == ("-" + namespace) + "-app-" + x;
    }
  }

  lemma SharedNamespace(a: string, b: string, x: string, y: string)
    requires |Lead(a)| <= |Lead(b)| && Lead(a) != Lead(b) && AppNamespace(a, x) == AppNamespace(b, y)
    ensures Continues(Lead(a), Lead(b), "-app-")
  {
    hide Lead, AppNamespace, Continues;
    LeadIsBefore(a, x);
    LeadIsBefore(b, y);
    assert Lead(a) + "-app-" + x == Lead(a) + ("-app-" + x);
    assert Lead(b) + "-app-" + y == Lead(b) + ("-app-" + y);
    Longer(Lead(a), "-app-" + x, Lead(b), "-app-" + y);
    SplitTwice(Lead(a), "-app-", x, Lead(b), "-app-" + y);
  }

  lemma Longer(a: string, x: string, b: string, y: string)
    requires a + x == b + y && |a| <= |b| && a != b
    ensures |a| < |b|
  {
    assert (a + x)[..|a|] == a && (b + y)[..|b|] == b;
  }

  lemma ContinuedNamespaceIsShared(a: string, b: string, y: string) returns (x: string)
    requires Continues(Lead(a), Lead(b), "-app-")
    ensures AppNamespace(a, x) == AppNamespace(b, y)
  {
    var la, lb := Lead(a), Lead(b);
    assert "-app-"[..4] == "-app";
    if lb == la + "-app" {
      x := "app-" + y;
      assert lb + "-app-" + y == la + "-app-" + x;
    } else {
      x := lb[|la| + 5..] + "-app-" + y;
      assert lb == la + "-app-" + lb[|la| + 5..];
      assert lb + "-app-" + y == la + "-app-" + x;
    }
    LeadIsBefore(a, x);
    LeadIsBefore(b, y);
    Cancel("-", AppNamespace(a, x), AppNamespace(b, y));
  }

  /** Apps of two namespaces can share an app namespace if and only if, but for the default namespace, the name of one
      is that of the other with "-app" behind it, or begins with that and a dash; with the default namespace, if the
      other one is called "app" or begins with "app-". */
  lemma AppNamespacesCollideIff(a: string, b: string)
    requires a != b
    ensures (exists x, y :: AppNamespace(a, x) == AppNamespace(b, y)) <==>
      Continues(Lead(a), Lead(b), "-app-") || Continues(Lead(b), Lead(a), "-app-")
  {
    hide AppNamespace, Continues;
    assert Lead(a) != Lead(b) by {
      if a != "default" && b != "default" && Lead(a) == Lead(b) {
        Cancel("-", a, b);
      }
    }
    if x, y :| AppNamespace(a, x) == AppNamespace(b, y) {
      if |Lead(a)| <= |Lead(b)| { SharedNamespace(a, b, x, y); } else { SharedNamespace(b, a, y, x); }
    }
    if Continues(Lead(a), Lead(b), "-app-") {
      var x := ContinuedNamespaceIsShared(a, b, "x");
    } else if Continues(Lead(b), Lead(a), "-app-") {
      var x := ContinuedNamespaceIsShared(b, a, "x");
    }
  }

  /** Both do happen: a cloud assignment can be named like the one of another rollout's robot. */
  lemma NamesCollide(rollout: string, namespace: string, app: string)
    requires namespace != "default"
    ensures AssignmentName(rollout + "-robot", "cloud", "") == AssignmentName(rollout, "robot", "cloud")
    ensures AppNamespace(namespace + "-app-" + app, "x") == AppNamespace(namespace, app + "-app-x")
  {
    assert (rollout + "-robot") + "-" + "cloud" == rollout + "-" + "robot" + "-" + "cloud";
    assert '-' in namespace + "-app-" + app by { assert (namespace + "-app-" + app)[|namespace|] == '-'; }
    assert '-' !in "default";
    assert (namespace + "-app-" + app) + "-app-" + "x" == namespace + "-app-" + (app + "-app-x");
  }

  // ----- Validation -----

  /** validate, as far as it is not about the syntax of the app's name: `nameOk` says whether that is fine. */
  method Validate(rollout: Rollout, nameOk: bool) returns (ok: bool)
    ensures ok <==>
      && rollout.appName != "" && nameOk && "robots" !in rollout.cloudValues
      && forall i :: 0 <= i < |rollout.robots| ==>
           && "robot" !in rollout.robots[i].values
           && rollout.robots[i].selector.Some?
           && (rollout.robots[i].selector.value.any.Some? || rollout.robots[i].selector.value.labels.Some?)
  {
    if rollout.appName == "" || !nameOk || "robots" in rollout.cloudValues {
      return false;
    }
    for i := 0 to |rollout.robots|
      invariant forall j :: 0 <= j < i ==>
        && "robot" !in rollout.robots[j].values
        && rollout.robots[j].selector.Some?
        && (rollout.robots[j].selector.value.any.Some? || rollout.robots[j].selector.value.labels.Some?)
    {
      var r := rollout.robots[i];
      if "robot" in r.values || r.selector.None? || (r.selector.value.any.None? && r.selector.value.labels.None?) {
        return false;
      }
    }
    return true;
  }

  /** Generation cannot run into a missing selector if every entry has one, which validation sees to. */
  lemma {:induction false} SelectorsAreThere(picks: seq<Pick>, entries: seq<RobotSpec>, robots: seq<Robot>, entry: nat)
    requires entry <= |entries| && forall i :: 0 <= i < |entries| ==> entries[i].selector.Some?
    ensures !PickFrom(picks, entries, robots, entry).MissingSelector?
    decreases |entries| - entry
  {
    if entry < |entries| {
      var p := AddAll(picks, Filtered(robots, entries[entry].selector.value), entry);
      if p.Picked? {
        SelectorsAreThere(p.picks, entries, robots, entry + 1);
      } else {
        NeverMissing(picks, Filtered(robots, entries[entry].selector.value), entry);
      }
    }
  }

  lemma {:induction false} NeverMissing(picks: seq<Pick>, robots: seq<Robot>, entry: nat)
    ensures !AddAll(picks, robots, entry).MissingSelector?
    decreases robots
  {
    if robots != [] && !HasName(picks, robots[0].name) {
      NeverMissing(picks + [Pick(robots[0], entry)], robots[1..], entry);
    }
  }
}
