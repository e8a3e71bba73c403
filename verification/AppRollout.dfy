/** The AppRollout controller: from an app, its rollout and the robots to the ChartAssignments that are wanted. */
module AppRollout {
  import opened Wrappers
  import opened NameOrder

  // ----- Values -----

  datatype Value =
    | Scalar(text: string) | Texts(list: seq<string>) | OneRobot(name: string) | RobotList(names: seq<string>)
    | Table(entries: map<string, Value>)

  /** MergeInto on values: tables are merged, everything else is replaced. */
  function Merged(dest: Value, src: Value): Value
    decreases src
  {
    if dest.Table? && src.Table? then
      Table(map k | k in dest.entries.Keys + src.entries.Keys ::
              if k !in src.entries then dest.entries[k]
              else if k !in dest.entries then src.entries[k]
              else Merged(dest.entries[k], src.entries[k]))
    else src
  }

  type Values = map<string, Value>

  function Merge(dest: Values, src: Values): Values { Merged(Table(dest), Table(src)).entries }

  // ----- Robots and their selection -----

  datatype Robot = Robot(name: string, labels: map<string, string>)

  /** One requirement of a label selector. Malformed stands for keys and values that are not label syntax, and for
      unknown operators. */
  datatype Requirement =
    | In(key: string, values: seq<string>) | NotIn(key: string, values: seq<string>)
    | Exists(key: string) | DoesNotExist(key: string) | Malformed

  /** A selector says `any`, or requires labels, or does neither. */
  datatype Selector = Selector(any: Option<bool>, labels: Option<seq<Requirement>>)

  predicate WellFormed(r: Requirement) { !r.Malformed? && (r.In? || r.NotIn? ==> r.values != []) }

  predicate Holds(r: Requirement, labels: map<string, string>) {
    match r
    case In(k, vs) => k in labels && labels[k] in vs
    case NotIn(k, vs) => k !in labels || labels[k] !in vs
    case Exists(k) => k in labels
    case DoesNotExist(k) => k !in labels
    case Malformed => false
  }

  predicate Valid(sel: Selector) {
    sel.any == Some(true) || sel.labels.None? || forall r :: r in sel.labels.value ==> WellFormed(r)
  }

  /** Whether a valid selector selects a robot. */
  predicate Selects(sel: Selector, robot: Robot) {
    sel.any == Some(true) || (sel.labels.Some? && forall r :: r in sel.labels.value ==> Holds(r, robot.labels))
  }

  function Filtered(robots: seq<Robot>, sel: Selector): (res: seq<Robot>)
    ensures forall r :: r in res <==> r in robots && Selects(sel, r)
  {
    if robots == [] then []
    else
      var last := robots[|robots| - 1];
      assert robots == robots[..|robots| - 1] + [last];
      Filtered(robots[..|robots| - 1], sel) + (if Selects(sel, last) then [last] else [])
  }

  /** matchingRobots; None if the selector is invalid. */
  method MatchingRobots(robots: seq<Robot>, sel: Selector) returns (res: Option<seq<Robot>>)
    ensures res == (if Valid(sel) then Some(Filtered(robots, sel)) else None)
  {
    if sel.any == Some(true) {
      AllFiltered(robots, sel);
      return Some(robots);
    }
    if sel.labels.None? {
      NoneFiltered(robots, sel);
      return Some([]);
    }
    for i := 0 to |sel.labels.value|
      invariant forall j :: 0 <= j < i ==> WellFormed(sel.labels.value[j])
    {
      if !WellFormed(sel.labels.value[i]) {
        return None;
      }
    }
    var matching := [];
    for i := 0 to |robots|
      invariant matching == Filtered(robots[..i], sel)
    {
      assert robots[..i + 1][..i] == robots[..i];
      if Selects(sel, robots[i]) {
        matching := matching + [robots[i]];
      }
    }
    assert robots[..|robots|] == robots;
    return Some(matching);
  }

  lemma {:induction false} AllFiltered(robots: seq<Robot>, sel: Selector)
    requires sel.any == Some(true)
    ensures Filtered(robots, sel) == robots
  {
    if robots != [] {
      AllFiltered(robots[..|robots| - 1], sel);
    }
  }

  lemma {:induction false} NoneFiltered(robots: seq<Robot>, sel: Selector)
    requires sel.any != Some(true) && sel.labels.None?
    ensures Filtered(robots, sel) == []
  {
    if robots != [] {
      NoneFiltered(robots[..|robots| - 1], sel);
    }
  }

  // ----- Apps and rollouts -----

  datatype Component = Component(name: string, inline: string)
  datatype App = App(repository: string, version: string, robot: Component, cloud: Component)

  /** One entry of a rollout's list of robots. */
  datatype RobotSpec = RobotSpec(selector: Option<Selector>, values: Values, version: string)

  datatype Rollout = Rollout(
    name: string, namespace: string, uid: nat, appName: string, labels: map<string, string>,
    annotations: map<string, string>,
    cloudValues: Values, robots: seq<RobotSpec>)

  /** No tenant has an empty name. */
  datatype Tenant = Tenant(name: string, gateway: string, domain: string,
                           namespaces: seq<string>, mainNamespace: string)

  datatype Chart = Chart(repository: string, version: string, name: string, inline: string, values: Values)

  datatype Assignment = Assignment(
    name: string, namespace: string, labels: map<string, string>, annotations: map<string, string>,
    clusterName: string, namespaceName: string, chart: Chart)

  const LAST_APPLIED := "kubectl.kubernetes.io/last-applied-configuration"
  const ROBOT_NAME := "cloudrobotics.com/robot-name"

  predicate Given(c: Component) { c.name != "" || c.inline != "" }

  function AssignmentName(rollout: string, kind: string, robot: string): string {
    if robot != "" then rollout + "-" + kind + "-" + robot else rollout + "-" + kind
  }

  function AppNamespace(namespace: string, rollout: string): string {
    if namespace == "default" then "app-" + rollout else namespace + "-app-" + rollout
  }

  function BaseChart(app: App, c: Component): Chart {
    if c.name != "" then Chart(app.repository, app.version, c.name, c.inline, map[])
    else Chart("", "", "", c.inline, map[])
  }

  /** The values that a tenant adds; the gateway goes to the cloud only. */
  function TenantValues(tenant: Tenant): Values {
    if tenant.name == "" then map[]
    else map["tenant" := Scalar(tenant.name), "tenant_domain" := Scalar(tenant.domain),
             "tenant_namespaces" := Texts(tenant.namespaces), "tenant_main_namespace" := Scalar(tenant.mainNamespace)]
  }

  function RobotAssignment(robot: Robot, app: App, rollout: Rollout, tenant: Tenant, spec: RobotSpec,
                           base: Values): Assignment {
    var chart := BaseChart(app, app.robot);
    var values := Merge(Merge(Merge(Merge(map[], base), spec.values), map["robot" := OneRobot(robot.name)]),
                        TenantValues(tenant));
    Assignment(
      AssignmentName(rollout.name, "robot", robot.name), rollout.namespace,
      rollout.labels[ROBOT_NAME := robot.name], rollout.annotations - {LAST_APPLIED},
      robot.name, AppNamespace(rollout.namespace, rollout.name),
      chart.(version := if spec.version != "" then spec.version else chart.version, values := values))
  }

  function CloudAssignment(app: App, rollout: Rollout, tenant: Tenant, base: Values, robots: seq<string>): Assignment {
    var gateway := if tenant.name == "" then map[] else map["tenant_gateway" := Scalar(tenant.gateway)];
    var own := Merge(Merge(Merge(map[], base), rollout.cloudValues), map["robots" := RobotList(robots)]);
    var values := Merge(Merge(own, gateway), TenantValues(tenant));
    Assignment(
      AssignmentName(rollout.name, "cloud", ""), rollout.namespace, rollout.labels,
      rollout.annotations - {LAST_APPLIED},
      "cloud", AppNamespace(rollout.namespace, rollout.name), BaseChart(app, app.cloud).(values := values))
  }

  // ----- Generation -----

  /** A robot, and the entry of the rollout that selected it. */
  datatype Pick = Pick(robot: Robot, entry: nat)

  datatype Picked = Picked(picks: seq<Pick>) | MissingSelector | InvalidSelector | Overlap(robot: string)

  predicate HasName(picks: seq<Pick>, name: string) { exists i :: 0 <= i < |picks| && picks[i].robot.name == name }

  /** The robots of one entry are picked one after the other, until one was picked before. */
  function AddAll(picks: seq<Pick>, robots: seq<Robot>, entry: nat): Picked
    decreases robots
  {
    if robots == [] then Picked(picks)
    else if HasName(picks, robots[0].name) then Overlap(robots[0].name)
    else AddAll(picks + [Pick(robots[0], entry)], robots[1..], entry)
  }

  function PickFrom(picks: seq<Pick>, entries: seq<RobotSpec>, robots: seq<Robot>, entry: nat): Picked
    requires entry <= |entries|
    decreases |entries| - entry
  {
    if entry == |entries| then Picked(picks)
    else
      match entries[entry].selector
      case None => MissingSelector
      case Some(sel) =>
        if !Valid(sel) then InvalidSelector
        else
          var p := AddAll(picks, Filtered(robots, sel), entry);
          if p.Picked? then PickFrom(p.picks, entries, robots, entry + 1) else p
  }

  function RobotAssignments(picks: seq<Pick>, app: App, rollout: Rollout, tenant: Tenant,
                            base: Values): (r: seq<Assignment>)
    requires forall p :: p in picks ==> p.entry < |rollout.robots|
    ensures |r| == |picks|
    ensures forall i :: 0 <= i < |picks| ==>
      r[i] == RobotAssignment(picks[i].robot, app, rollout, tenant, rollout.robots[picks[i].entry], base)
  {
    if picks == [] then []
    else
      var last := picks[|picks| - 1];
      RobotAssignments(picks[..|picks| - 1], app, rollout, tenant, base)
      + [RobotAssignment(last.robot, app, rollout, tenant, rollout.robots[last.entry], base)]
  }

  function Names(picks: seq<Pick>): (r: seq<string>)
    ensures |r| == |picks| && forall i :: 0 <= i < |picks| ==> r[i] == picks[i].robot.name
  {
    seq(|picks|, i requires 0 <= i < |picks| => picks[i].robot.name)
  }

  function Self(name: string): string { name }

  function NameOf(a: Assignment): string { a.name }

  ghost predicate EntriesOf(picks: seq<Pick>, rollout: Rollout) {
    forall p :: p in picks ==> p.entry < |rollout.robots|
  }

  /** The wanted assignments for a selection. */
  function Wanted(picks: seq<Pick>, app: App, rollout: Rollout, tenant: Tenant, base: Values): seq<Assignment>
    requires EntriesOf(picks, rollout)
  {
    var ofRobots := if Given(app.robot) then RobotAssignments(picks, app, rollout, tenant, base) else [];
    var ofCloud := if Given(app.cloud) then [CloudAssignment(app, rollout, tenant, base, SortBy(Names(picks), Self))]
                   else [];
    SortBy(ofRobots + ofCloud, NameOf)
  }

  /** How generation ends. Without a selector the code panics; the webhook refuses such rollouts. */
  datatype Generated = Assignments(list: seq<Assignment>) | Failed(why: Picked)

  lemma {:induction false} AddAllEntries(picks: seq<Pick>, robots: seq<Robot>, entry: nat, rollout: Rollout)
    requires EntriesOf(picks, rollout) && entry < |rollout.robots|
    ensures AddAll(picks, robots, entry).Picked? ==> EntriesOf(AddAll(picks, robots, entry).picks, rollout)
    decreases |robots|
  {
    if robots != [] && !HasName(picks, robots[0].name) {
      AddAllEntries(picks + [Pick(robots[0], entry)], robots[1..], entry, rollout);
    }
  }

  lemma {:induction false} PickFromEntries(picks: seq<Pick>, robots: seq<Robot>, entry: nat, rollout: Rollout)
    requires EntriesOf(picks, rollout) && entry <= |rollout.robots|
    ensures
      var p := PickFrom(picks, rollout.robots, robots, entry);
      p.Picked? ==> EntriesOf(p.picks, rollout)
    decreases |rollout.robots| - entry
  {
    if entry < |rollout.robots| && rollout.robots[entry].selector.Some? {
      var ms := Filtered(robots, rollout.robots[entry].selector.value);
      AddAllEntries(picks, ms, entry, rollout);
      var p := AddAll(picks, ms, entry);
      if p.Picked? {
        PickFromEntries(p.picks, robots, entry + 1, rollout);
      }
    }
  }

  ghost function Generate(app: App, rollout: Rollout, tenant: Tenant, robots: seq<Robot>, base: Values): Generated {
    PickFromEntries([], robots, 0, rollout);
    var p := PickFrom([], rollout.robots, robots, 0);
    if p.Picked? then Assignments(Wanted(p.picks, app, rollout, tenant, base)) else Failed(p)
  }

  // ----- The loops of generateChartAssignments -----

  /** What the map of selected robots stands for. */
  ghost predicate Represents(selected: map<string, Robot>, picks: seq<Pick>) {
    && (forall n :: n in selected <==> HasName(picks, n))
    && (forall i, j :: 0 <= i < j < |picks| ==> picks[i].robot.name != picks[j].robot.name)
  }

  lemma AddKeepsRepresents(selected: map<string, Robot>, picks: seq<Pick>, pick: Pick)
    requires Represents(selected, picks) && pick.robot.name !in selected
    ensures Represents(selected[pick.robot.name := pick.robot], picks + [pick])
  {
    var more := picks + [pick];
    assert more[|picks|] == pick;
    forall i | 0 <= i < |picks| ensures picks[i].robot.name != pick.robot.name {
      assert HasName(picks, picks[i].robot.name);
    }
    forall n | HasName(picks, n) ensures HasName(more, n) {
      var i :| 0 <= i < |picks| && picks[i].robot.name == n;
      assert more[i].robot.name == n;
    }
  }

  lemma SnocAssignment(picks: seq<Pick>, pick: Pick, app: App, rollout: Rollout, tenant: Tenant, base: Values)
    requires EntriesOf(picks + [pick], rollout)
    ensures EntriesOf(picks, rollout) && pick.entry < |rollout.robots|
    ensures RobotAssignments(picks + [pick], app, rollout, tenant, base)
         == RobotAssignments(picks, app, rollout, tenant, base)
          + [RobotAssignment(pick.robot, app, rollout, tenant, rollout.robots[pick.entry], base)]
  {
    assert pick in picks + [pick];
    forall p | p in picks ensures p in picks + [pick] { }
    assert (picks + [pick])[..|picks|] == picks;
  }

  /** The inner loop: the robots of one entry. */
  method AddRobots(ghost picks: seq<Pick>, selected: map<string, Robot>, cas: seq<Assignment>, robots: seq<Robot>,
                   entry: nat, app: App, rollout: Rollout, tenant: Tenant, base: Values)
    returns (res: map<string, Robot>, list: seq<Assignment>, overlap: Option<string>)
    requires entry < |rollout.robots| && EntriesOf(picks, rollout) && Represents(selected, picks)
    requires cas == if Given(app.robot) then RobotAssignments(picks, app, rollout, tenant, base) else []
    ensures
      var p := AddAll(picks, robots, entry);
      if p.Picked? then
        && overlap.None? && EntriesOf(p.picks, rollout) && Represents(res, p.picks)
        && list == if Given(app.robot) then RobotAssignments(p.picks, app, rollout, tenant, base) else []
      else p.Overlap? && overlap == Some(p.robot)
  {
    res, list := selected, cas;
    ghost var more := picks;
    for i := 0 to |robots|
      invariant EntriesOf(more, rollout) && Represents(res, more)
      invariant AddAll(picks, robots, entry) == AddAll(more, robots[i..], entry)
      invariant list == if Given(app.robot) then RobotAssignments(more, app, rollout, tenant, base) else []
    {
      var r := robots[i];
      assert robots[i..][0] == r && robots[i..][1..] == robots[i + 1..];
      if r.name in res {
        return res, list, Some(r.name);
      }
      AddKeepsRepresents(res, more, Pick(r, entry));
      res := res[r.name := r];
      SnocAssignment(more, Pick(r, entry), app, rollout, tenant, base);
      if Given(app.robot) {
        list := list + [RobotAssignment(r, app, rollout, tenant, rollout.robots[entry], base)];
      }
      more := more + [Pick(r, entry)];
    }
    overlap := None;
  }

  /** The names of the selected robots, whatever the order in which the map is ranged over. */
  method SortedNames(selected: map<string, Robot>, ghost picks: seq<Pick>) returns (names: seq<string>)
    requires Represents(selected, picks)
    ensures names == SortBy(Names(picks), Self)
  {
    var list, todo := [], selected.Keys;
    while todo != {}
      invariant todo <= selected.Keys && Distinct(list, Self)
      invariant forall n :: n in list <==> n in selected && n !in todo
      decreases todo
    {
      var n :| n in todo;
      todo := todo - {n};
      list := list + [n];
    }
    SameSort(list, picks);
    names := SortBy(list, Self);
  }

  lemma SameSort(list: seq<string>, picks: seq<Pick>)
    requires Distinct(list, Self) && Distinct(Names(picks), Self)
    requires forall n :: n in list <==> HasName(picks, n)
    ensures SortBy(list, Self) == SortBy(Names(picks), Self)
  {
    SortBySorts(list, Self);
    SortBySorts(Names(picks), Self);
    forall n ensures n in Names(picks) <==> HasName(picks, n) {
      if HasName(picks, n) {
        var i :| 0 <= i < |picks| && picks[i].robot.name == n;
        assert Names(picks)[i] == n;
      }
    }
    IncreasingIsUnique(SortBy(list, Self), SortBy(Names(picks), Self), Self);
  }

  method GenerateAssignments(app: App, rollout: Rollout, tenant: Tenant, robots: seq<Robot>, base: Values)
    returns (r: Generated)
    ensures r == Generate(app, rollout, tenant, robots, base)
  {
    hide AddAll, Filtered, Valid, RobotAssignment, CloudAssignment, SortBy, Names, RobotAssignments;
    var selected: map<string, Robot>, cas: seq<Assignment> := map[], [];
    ghost var picks := [];
    for i := 0 to |rollout.robots|
      invariant EntriesOf(picks, rollout) && Represents(selected, picks)
      invariant PickFrom([], rollout.robots, robots, 0) == PickFrom(picks, rollout.robots, robots, i)
      invariant cas == if Given(app.robot) then RobotAssignments(picks, app, rollout, tenant, base) else []
    {
      if rollout.robots[i].selector.None? {
        return Failed(MissingSelector);
      }
      var matching := MatchingRobots(robots, rollout.robots[i].selector.value);
      if matching.None? {
        return Failed(InvalidSelector);
      }
      var overlap;
      ghost var p := AddAll(picks, matching.value, i);
      selected, cas, overlap := AddRobots(picks, selected, cas, matching.value, i, app, rollout, tenant, base);
      if overlap.Some? {
        return Failed(Overlap(overlap.value));
      }
      picks := p.picks;
    }
    if Given(app.cloud) {
      var names := SortedNames(selected, picks);
      cas := cas + [CloudAssignment(app, rollout, tenant, base, names)];
    } else {
      assert cas == cas + [];
    }
    return Assignments(SortBy(cas, NameOf));
  }
}
