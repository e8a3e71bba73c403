/** The values of a rollout's assignments on shared tables: when they are exactly those that RobotAssignment and
    CloudAssignment say. */
module RolloutValues {
  import opened Wrappers
  import opened NameOrder
  import opened AppRollout
  import opened ValueMerges
  import opened SharedTables
  import opened SharedValues
  import opened SharedGeneration

  // ----- The assignments of a rollout -----

  function RobotExtra(robot: Robot, tenant: Tenant): Values {
    map["robot" := OneRobot(robot.name)] + TenantValues(tenant)
  }

  function CloudExtra(names: seq<string>, tenant: Tenant): Values {
    map["robots" := RobotList(names)]
    + (if tenant.name == "" then map[] else map["tenant_gateway" := Scalar(tenant.gateway)])
    + TenantValues(tenant)
  }

  /** The assignments in the order in which they are made. */
  function Made(picks: seq<Pick>, app: App, rollout: Rollout, tenant: Tenant, base: Values): seq<Assignment>
    requires EntriesOf(picks, rollout)
  {
    (if Given(app.robot) then RobotAssignments(picks, app, rollout, tenant, base) else [])
    + (if Given(app.cloud) then [CloudAssignment(app, rollout, tenant, base, SortBy(Names(picks), Self))] else [])
  }

  /** What they put over the base values. */
  function LayersOf(picks: seq<Pick>, app: App, rollout: Rollout, tenant: Tenant): seq<Layer>
    requires EntriesOf(picks, rollout)
  {
    (if Given(app.robot) then
       seq(|picks|, i requires 0 <= i < |picks| =>
         Layer(rollout.robots[picks[i].entry].values, RobotExtra(picks[i].robot, tenant)))
     else [])
    + (if Given(app.cloud) then [Layer(rollout.cloudValues, CloudExtra(SortBy(Names(picks), Self), tenant))] else [])
  }

  lemma MergeGiven(v: Values, extra: Values)
    requires NoTables(extra)
    ensures Merge(v, extra) == v + extra
  {
    forall k | k in v || k in extra ensures k in Merge(v, extra) && Merge(v, extra)[k] == (v + extra)[k] {
      MergeAt(v, extra, k);
    }
    assert Merge(v, extra).Keys == (v + extra).Keys;
    assert Merge(v, extra) == v + extra;
  }

  lemma MergeEmpty(v: Values)
    ensures Merge(map[], v) == v
  {
  }

  lemma GivenTogether(v: Values, one: Values, two: Values)
    requires NoTables(one) && NoTables(two)
    ensures NoTables(one + two) && Merge(Merge(v, one), two) == Merge(v, one + two)
  {
    hide Merge;
    MergeGiven(v, one);
    MergeGiven(v + one, two);
    MergeGiven(v, one + two);
    assert (v + one) + two == v + (one + two);
  }

  lemma TenantIsPlain(tenant: Tenant)
    ensures NoTables(TenantValues(tenant))
  {
  }

  lemma RobotAsMeant(robot: Robot, app: App, rollout: Rollout, tenant: Tenant, spec: RobotSpec, base: Values)
    ensures RobotAssignment(robot, app, rollout, tenant, spec, base).chart.values
         == Meant(base, Layer(spec.values, RobotExtra(robot, tenant)))
  {
    hide Merge, TenantValues;
    MergeEmpty(base);
    TenantIsPlain(tenant);
    GivenTogether(Merge(base, spec.values), map["robot" := OneRobot(robot.name)], TenantValues(tenant));
  }

  lemma CloudAsMeant(app: App, rollout: Rollout, tenant: Tenant, base: Values, names: seq<string>)
    ensures CloudAssignment(app, rollout, tenant, base, names).chart.values
         == Meant(base, Layer(rollout.cloudValues, CloudExtra(names, tenant)))
  {
    hide Merge, TenantValues;
    var own, list := Merge(base, rollout.cloudValues), map["robots" := RobotList(names)];
    var gateway := if tenant.name == "" then map[] else map["tenant_gateway" := Scalar(tenant.gateway)];
    MergeEmpty(base);
    TenantIsPlain(tenant);
    GivenTogether(own, list, gateway);
    GivenTogether(own, list + gateway, TenantValues(tenant));
  }

  /** The values of an assignment are those that its layer means. */
  lemma MadeAsMeant(picks: seq<Pick>, app: App, rollout: Rollout, tenant: Tenant, base: Values, i: nat)
    requires EntriesOf(picks, rollout)
    requires i < |Made(picks, app, rollout, tenant, base)|
    ensures |LayersOf(picks, app, rollout, tenant)| == |Made(picks, app, rollout, tenant, base)|
    ensures Made(picks, app, rollout, tenant, base)[i].chart.values
        == Meant(base, LayersOf(picks, app, rollout, tenant)[i])
  {
    hide Merge, Meant, RobotAssignment, CloudAssignment, RobotExtra, CloudExtra, SortBy, Names;
    if Given(app.robot) && i < |picks| {
      assert picks[i] in picks;
      RobotAsMeant(picks[i].robot, app, rollout, tenant, rollout.robots[picks[i].entry], base);
    } else {
      CloudAsMeant(app, rollout, tenant, base, SortBy(Names(picks), Self));
    }
  }

  /** Robots' assignments are given one robot, which no accepted rollout sets itself, and what the tenant adds is given
      to all assignments. */
  lemma LayersWellGiven(picks: seq<Pick>, app: App, rollout: Rollout, tenant: Tenant, base: Values)
    requires EntriesOf(picks, rollout) && forall i :: 0 <= i < |rollout.robots| ==> "robot" !in rollout.robots[i].values
    ensures WellGiven(base, LayersOf(picks, app, rollout, tenant))
    ensures forall i :: 0 <= i < |LayersOf(picks, app, rollout, tenant)| ==>
      NoTables(LayersOf(picks, app, rollout, tenant)[i].extra)
  {
    hide SortBy, Names;
    var layers := LayersOf(picks, app, rollout, tenant);
    forall i | 0 <= i < |layers|
      ensures NoTables(layers[i].extra) && TenantValues(tenant).Keys <= layers[i].extra.Keys
      ensures i < |layers| - 1 ==>
        layers[i].extra.Keys == {"robot"} + TenantValues(tenant).Keys && "robot" !in layers[i].own
    {
      if Given(app.robot) && i < |picks| {
        assert picks[i] in picks;
      }
    }
  }

  lemma WantedIsMade(picks: seq<Pick>, app: App, rollout: Rollout, tenant: Tenant, base: Values)
    requires EntriesOf(picks, rollout)
    ensures Wanted(picks, app, rollout, tenant, base) == SortBy(Made(picks, app, rollout, tenant, base), NameOf)
  {
    hide SortBy, RobotAssignment, CloudAssignment;
  }

  // ----- The order of the picks -----

  ghost predicate InOrder(picks: seq<Pick>, entry: nat) {
    && (forall p :: p in picks ==> p.entry <= entry)
    && forall i, j :: 0 <= i < j < |picks| ==> picks[i].entry <= picks[j].entry
  }

  lemma {:induction false} AddAllInOrder(picks: seq<Pick>, robots: seq<Robot>, entry: nat)
    requires InOrder(picks, entry)
    ensures AddAll(picks, robots, entry).Picked? ==> InOrder(AddAll(picks, robots, entry).picks, entry)
    decreases |robots|
  {
    if robots != [] && !HasName(picks, robots[0].name) {
      var more := picks + [Pick(robots[0], entry)];
      forall p | p in more ensures p.entry <= entry { }
      forall i, j | 0 <= i < j < |more| ensures more[i].entry <= more[j].entry { assert more[i] in picks; }
      AddAllInOrder(more, robots[1..], entry);
    }
  }

  lemma {:induction false} PickedInOrder(picks: seq<Pick>, entries: seq<RobotSpec>, robots: seq<Robot>, entry: nat)
    requires entry <= |entries| && InOrder(picks, entry)
    ensures
      var p := PickFrom(picks, entries, robots, entry);
      p.Picked? ==> InOrder(p.picks, |entries|)
    decreases |entries| - entry
  {
    hide InOrder, AddAll;
    InOrderUpTo(picks, entry, |entries|);
    if entry < |entries| && entries[entry].selector.Some? {
      AddAllInOrder(picks, Filtered(robots, entries[entry].selector.value), entry);
      var p := AddAll(picks, Filtered(robots, entries[entry].selector.value), entry);
      if p.Picked? {
        InOrderUpTo(p.picks, entry, entry + 1);
        PickedInOrder(p.picks, entries, robots, entry + 1);
      }
    }
  }

  lemma InOrderUpTo(picks: seq<Pick>, entry: nat, later: nat)
    requires InOrder(picks, entry) && entry <= later
    ensures InOrder(picks, later)
  {
  }

  // ----- A generation -----

  /** The values in a rollout, decoded each by itself: the entries' and then those for the cloud. */
  ghost predicate RolloutDecoded(s: Store, b: nat, values: seq<nat>, base: Values, rollout: Rollout) {
    && |values| == |rollout.robots| + 1 && Tree(s, Sub(b), Table(base))
    && (forall i :: 0 <= i < |values| ==>
          Tree(s, Sub(values[i]), Table(OwnValues(rollout, i))) && Apart(s, b, values[i], base, OwnValues(rollout, i)))
    && (forall i, j :: 0 <= i < |values| && 0 <= j < |values| && i != j ==>
          values[i] != values[j] && Apart(s, values[i], values[j], OwnValues(rollout, i), OwnValues(rollout, j)))
  }

  function OwnValues(rollout: Rollout, i: nat): Values
    requires i <= |rollout.robots|
  {
    if i < |rollout.robots| then rollout.robots[i].values else rollout.cloudValues
  }

  /** Which values each assignment is built from. */
  function Used(picks: seq<Pick>, app: App, rollout: Rollout): (r: seq<nat>)
    requires EntriesOf(picks, rollout)
    ensures forall i :: i in r ==> i <= |rollout.robots|
  {
    (if Given(app.robot) then seq(|picks|, i requires 0 <= i < |picks| => picks[i].entry) else [])
    + (if Given(app.cloud) then [|rollout.robots|] else [])
  }

  lemma UsedValues(picks: seq<Pick>, app: App, rollout: Rollout, tenant: Tenant, i: nat)
    requires EntriesOf(picks, rollout)
    ensures |Used(picks, app, rollout)| == |LayersOf(picks, app, rollout, tenant)|
    ensures i < |Used(picks, app, rollout)| ==>
      LayersOf(picks, app, rollout, tenant)[i].own == OwnValues(rollout, Used(picks, app, rollout)[i])
  {
    hide RobotExtra, CloudExtra, SortBy, Names;
    if Given(app.robot) && i < |picks| { assert picks[i] in picks; }
  }

  lemma UsedInOrder(picks: seq<Pick>, app: App, rollout: Rollout, i: nat, j: nat)
    requires EntriesOf(picks, rollout) && InOrder(picks, |rollout.robots|) && i < j < |Used(picks, app, rollout)|
    ensures Used(picks, app, rollout)[i] <= Used(picks, app, rollout)[j]
  {
    if Given(app.robot) {
      assert picks[i] in picks;
    }
  }

  lemma AllDecoded(s: Store, b: nat, values: seq<nat>, app: App, rollout: Rollout, tenant: Tenant, picks: seq<Pick>,
                   base: Values,
                   owns: seq<nat>)
    requires EntriesOf(picks, rollout) && InOrder(picks, |rollout.robots|)
    requires RolloutDecoded(s, b, values, base, rollout)
    requires |owns| == |Used(picks, app, rollout)|
    requires forall i :: 0 <= i < |owns| ==> owns[i] == values[Used(picks, app, rollout)[i]]
    requires forall i :: 0 <= i < |LayersOf(picks, app, rollout, tenant)| ==>
      NoTables(LayersOf(picks, app, rollout, tenant)[i].extra)
    ensures Decoded(s, b, owns, base, LayersOf(picks, app, rollout, tenant))
  {
    hide Tree, Apart, NoTables, EntriesOf, LayersOf, OwnValues, InOrder;
    var used, layers := Used(picks, app, rollout), LayersOf(picks, app, rollout, tenant);
    UsedValues(picks, app, rollout, tenant, 0);
    hide Used;
    forall i | 0 <= i < |owns| ensures used[i] in used && layers[i].own == OwnValues(rollout, used[i]) {
      UsedValues(picks, app, rollout, tenant, i);
    }
    forall i, j, k | 0 <= i < j < k < |owns| && owns[i] == owns[k] ensures owns[j] == owns[i] {
      UsedInOrder(picks, app, rollout, i, j);
      UsedInOrder(picks, app, rollout, j, k);
    }
  }

  /** For each assignment, its own values and those that it is given. */
  method Gather(values: seq<nat>, app: App, rollout: Rollout, tenant: Tenant, picks: seq<Pick>)
    returns (owns: seq<nat>, extras: seq<Values>)
    requires EntriesOf(picks, rollout) && |values| == |rollout.robots| + 1
    ensures |owns| == |extras| == |Used(picks, app, rollout)| == |LayersOf(picks, app, rollout, tenant)|
    ensures forall i :: 0 <= i < |owns| ==> owns[i] == values[Used(picks, app, rollout)[i]]
    ensures forall i :: 0 <= i < |owns| ==> extras[i] == LayersOf(picks, app, rollout, tenant)[i].extra
  {
    hide SortBy, Names, RobotExtra, CloudExtra;
    owns, extras := [], [];
    if Given(app.robot) {
      for i := 0 to |picks|
        invariant |owns| == |extras| == i
        invariant forall j :: 0 <= j < i ==>
          owns[j] == values[picks[j].entry] && extras[j] == RobotExtra(picks[j].robot, tenant)
      {
        assert picks[i] in picks;
        owns, extras := owns + [values[picks[i].entry]], extras + [RobotExtra(picks[i].robot, tenant)];
      }
    }
    if Given(app.cloud) {
      owns, extras := owns + [values[|rollout.robots|]], extras + [CloudExtra(SortBy(Names(picks), Self), tenant)];
    }
  }

  /** The tables of all assignments are built. If nothing in the rollout's entries sets what a robot is given, their
      values are those of the wanted assignments if and only if the assignments are independent. */
  method GenerateValues(m: Tables, b: nat, values: seq<nat>, app: App, rollout: Rollout, tenant: Tenant,
                        robots: seq<Robot>, picks: seq<Pick>,
                        ghost base: Values)
    returns (vals: seq<nat>)
    requires PickFrom([], rollout.robots, robots, 0) == Picked(picks) && EntriesOf(picks, rollout)
    requires RolloutDecoded(m.store, b, values, base, rollout)
    requires forall i :: 0 <= i < |rollout.robots| ==> "robot" !in rollout.robots[i].values
    modifies m
    ensures Generate(app, rollout, tenant, robots, base)
        == Assignments(SortBy(Made(picks, app, rollout, tenant, base), NameOf))
    ensures |vals| == |Made(picks, app, rollout, tenant, base)|
    ensures (forall i :: 0 <= i < |vals| ==>
               Tree(m.store, Sub(vals[i]), Table(Made(picks, app, rollout, tenant, base)[i].chart.values)))
       <==> Independent(base, LayersOf(picks, app, rollout, tenant))
    ensures Tree(m.store, Sub(b), Table(AfterAll(base, LayersOf(picks, app, rollout, tenant))))
  {
    hide Tree, Reaches, Fits, Apart, InTurn, NoTables, InBase, Built, AfterAll, Seen, Meant, WellGiven, Independent,
         Decoded, SharesTables, PickFrom, SortBy, Names, RobotExtra, CloudExtra, Wanted;
    WantedIsMade(picks, app, rollout, tenant, base);
    LayersWellGiven(picks, app, rollout, tenant, base);
    ghost var layers := LayersOf(picks, app, rollout, tenant);
    var owns, extras := Gather(values, app, rollout, tenant, picks);
    PickedInOrder([], rollout.robots, robots, 0);
    AllDecoded(m.store, b, values, app, rollout, tenant, picks, base, owns);
    vals := BuildAll(m, b, owns, extras, base, layers);
    forall i | 0 <= i < |vals|
      ensures Made(picks, app, rollout, tenant, base)[i].chart.values == Meant(base, layers[i])
    {
      MadeAsMeant(picks, app, rollout, tenant, base, i);
    }
  }
}
