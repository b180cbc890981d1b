/** The reporting forest built from a flat employee list (app/domain/org_chart.py). */
module OrgChart {
  import opened Base

  datatype Employee = Employee(id: Uuid, managerId: Option<Uuid>)

  datatype Node = Node(employee: Employee, reports: seq<Node>)

  /** The employees filed under a manager, in input order. */
  function ReportsOf(employees: seq<Employee>, manager: Option<Uuid>): seq<Employee> {
    if employees == [] then []
    else
      var rest := ReportsOf(employees[..|employees| - 1], manager);
      var last := employees[|employees| - 1];
      if last.managerId == manager then rest + [last] else rest
  }

  /** Every employee placed in the forest, parents before their reports. */
  function Preorder(forest: seq<Node>): seq<Employee>
    decreases forest
  {
    if forest == [] then []
    else [forest[0].employee] + Preorder(forest[0].reports) + Preorder(forest[1..])
  }

  function Ids(employees: seq<Employee>): set<Uuid> {
    set e | e in employees :: e.id
  }

  predicate UniqueIds(employees: seq<Employee>) {
    forall i, j :: 0 <= i < j < |employees| ==> employees[i].id != employees[j].id
  }

  function TopEmployees(forest: seq<Node>): (top: seq<Employee>)
    ensures |top| == |forest| && forall i :: 0 <= i < |forest| ==> top[i] == forest[i].employee
  {
    seq(|forest|, i requires 0 <= i < |forest| => forest[i].employee)
  }

  /** The guard-free unfolding: under each manager stand exactly the employees
      that name them, in input order, and so on downwards. */
  predicate IsUnfolding(employees: seq<Employee>, manager: Option<Uuid>, forest: seq<Node>)
    decreases forest
  {
    && TopEmployees(forest) == ReportsOf(employees, manager)
    && forall i :: 0 <= i < |forest| ==> IsUnfolding(employees, Some(forest[i].employee.id), forest[i].reports)
  }

  /** Each node is an employee of the list, filed under the node above it. */
  predicate HangsFrom(employees: seq<Employee>, manager: Option<Uuid>, forest: seq<Node>)
    decreases forest
  {
    forall i :: 0 <= i < |forest| ==>
      && forest[i].employee in employees
      && forest[i].employee.managerId == manager
      && HangsFrom(employees, Some(forest[i].employee.id), forest[i].reports)
  }

  /** Some employee with this id has a manager chain inside the list that ends,
      within k steps, at someone with no manager. */
  ghost predicate ChainEnds(employees: seq<Employee>, id: Uuid, k: nat)
    decreases k
  {
    exists e :: e in employees && e.id == id &&
      (e.managerId.None? || (k > 0 && ChainEnds(employees, e.managerId.value, k - 1)))
  }

  ghost predicate IsRooted(employees: seq<Employee>, id: Uuid) {
    exists k: nat :: ChainEnds(employees, id, k)
  }

  /** Everyone filed under a manager, or under anyone in `placed`, is in `visited`. */
  ghost predicate ReportsVisited(
    employees: seq<Employee>, manager: Option<Uuid>, placed: set<Uuid>, visited: set<Uuid>)
  {
    forall e :: e in employees && (e.managerId == manager || (e.managerId.Some? && e.managerId.value in placed)) ==>
      e.id in visited
  }

  // ----- What unique ids give the builder -----

  ghost predicate UpClosed(employees: seq<Employee>, visited: set<Uuid>) {
    forall e :: e in employees && e.id in visited && e.managerId.Some? ==> e.managerId.value in visited
  }

  /** No report of `manager` has been reached yet, though the manager has. */
  ghost predicate Untouched(employees: seq<Employee>, manager: Option<Uuid>, visited: set<Uuid>) {
    && UniqueIds(employees)
    && UpClosed(employees, visited)
    && (manager.Some? ==> manager.value in visited)
    && forall e :: e in employees && e.managerId == manager ==> e.id !in visited
  }

  /** Whoever was placed between two visited sets hangs from `manager` or from
      someone placed in between too. */
  ghost predicate Descends(employees: seq<Employee>, manager: Option<Uuid>, before: set<Uuid>, after: set<Uuid>) {
    forall e :: e in employees && e.id in after - before ==>
      e.managerId == manager || (e.managerId.Some? && e.managerId.value in after - before)
  }

  lemma {:induction false} ReportsOfMembers(employees: seq<Employee>, manager: Option<Uuid>)
    ensures forall e :: e in ReportsOf(employees, manager) <==> e in employees && e.managerId == manager
    ensures UniqueIds(employees) ==> UniqueIds(ReportsOf(employees, manager))
  {
    if employees != [] {
      ReportsOfMembers(employees[..|employees| - 1], manager);
      assert employees == employees[..|employees| - 1] + [employees[|employees| - 1]];
    }
  }

  lemma SameIdSameEmployee(employees: seq<Employee>, a: Employee, b: Employee)
    requires UniqueIds(employees) && a in employees && b in employees && a.id == b.id
    ensures a == b
  {
  }

  // ----- Preorder -----

  lemma {:induction false} PreorderAppend(a: seq<Node>, b: seq<Node>)
    ensures Preorder(a + b) == Preorder(a) + Preorder(b)
    decreases |a|
  {
    if a == [] {
      assert a + b == b;
    } else {
      assert (a + b)[1..] == a[1..] + b;
      PreorderAppend(a[1..], b);
    }
  }

  lemma PreorderOfOne(n: Node)
    ensures Preorder([n]) == [n.employee] + Preorder(n.reports)
  {
    assert [n][1..] == [];
  }

  lemma IdsAppend(a: seq<Employee>, b: seq<Employee>)
    ensures Ids(a + b) == Ids(a) + Ids(b)
  {
    forall id
      ensures id in Ids(a + b) <==> id in Ids(a) + Ids(b)
    {
      if id in Ids(a) {
        var e :| e in a && e.id == id;
        assert e in a + b;
      }
      if id in Ids(b) {
        var e :| e in b && e.id == id;
        assert e in a + b;
      }
    }
  }

  lemma UniqueIdsAppend(a: seq<Employee>, b: seq<Employee>)
    requires UniqueIds(a) && UniqueIds(b) && Ids(a) !! Ids(b)
    ensures UniqueIds(a + b)
  {
    var c := a + b;
    forall i, j | 0 <= i < j < |c|
      ensures c[i].id != c[j].id
    {
      if i < |a| <= j {
        assert c[i] in a && c[j] in b;
        assert c[i].id in Ids(a) && c[j].id in Ids(b);
      }
    }
  }

  /** Adding a freshly built subtree to the forest. */
  lemma PlaceNode(nodes: seq<Node>, n: Node)
    requires UniqueIds(Preorder(nodes)) && UniqueIds(Preorder(n.reports))
    requires n.employee.id !in Ids(Preorder(nodes)) + Ids(Preorder(n.reports))
    requires Ids(Preorder(nodes)) !! Ids(Preorder(n.reports))
    ensures UniqueIds(Preorder(nodes + [n]))
    ensures Ids(Preorder(nodes + [n])) == Ids(Preorder(nodes)) + {n.employee.id} + Ids(Preorder(n.reports))
  {
    var top := [n.employee];
    PreorderAppend(nodes, [n]);
    PreorderOfOne(n);
    assert Ids(top) == {n.employee.id};
    IdsAppend(top, Preorder(n.reports));
    UniqueIdsAppend(top, Preorder(n.reports));
    IdsAppend(Preorder(nodes), top + Preorder(n.reports));
    UniqueIdsAppend(Preorder(nodes), top + Preorder(n.reports));
  }

  // ----- The builder -----

  /** build_org_chart's local state: the index and the visited set it fills in place. */
  class Builder {
    var byManager: map<Option<Uuid>, seq<Employee>>
    var visited: set<Uuid>

    constructor ()
      ensures byManager == map[] && visited == {}
    {
      byManager, visited := map[], {};
    }

    function Filed(manager: Option<Uuid>): seq<Employee>
      reads this`byManager
    {
      if manager in byManager then byManager[manager] else []
    }

    /** The grouping loop: afterwards each manager's entry is the filtered input. */
    method Group(employees: seq<Employee>)
      requires byManager == map[]
      modifies this`byManager
      ensures forall manager :: Filed(manager) == ReportsOf(employees, manager)
      ensures forall i, j :: 0 <= i < j < |employees| && employees[i].managerId == employees[j].managerId ==>
                Precedes(Filed(employees[i].managerId), employees[i], employees[j])
      ensures forall manager, e ::
                multiset(Filed(manager))[e] == if e.managerId == manager then multiset(employees)[e] else 0
    {
      for i := 0 to |employees|
        invariant forall manager :: Filed(manager) == ReportsOf(employees[..i], manager)
      {
        var e := employees[i];
        assert employees[..i + 1][..i] == employees[..i];
        byManager := byManager[e.managerId := Filed(e.managerId) + [e]];
      }
      assert employees[..|employees|] == employees;
      forall i, j | 0 <= i < j < |employees| && employees[i].managerId == employees[j].managerId
        ensures Precedes(Filed(employees[i].managerId), employees[i], employees[j])
      {
        ReportsKeepOrder(employees, employees[i].managerId, i, j);
      }
      forall manager, e
        ensures multiset(Filed(manager))[e] == if e.managerId == manager then multiset(employees)[e] else 0
      {
        ReportsOfCounts(employees, manager, e);
      }
    }

    /** The recursive _build. Its guard keeps every input terminating; with
        unique ids it never skips anyone. */
    method Build(ghost employees: seq<Employee>, manager: Option<Uuid>) returns (nodes: seq<Node>)
      requires forall m :: Filed(m) == ReportsOf(employees, m)
      requires visited <= Ids(employees)
      modifies this`visited
      ensures old(visited) <= visited && IsBuilt(employees, manager, old(visited), visited, nodes)
      ensures Untouched(employees, manager, old(visited)) ==>
                IsBuiltFully(employees, manager, old(visited), visited, nodes)
      decreases |Ids(employees) - visited|
    {
      hide *;
      nodes := [];
      var kids := ReportsFiled(employees, manager);
      ghost var start := visited;
      ghost var untouched := Untouched(employees, manager, visited);
      Begin(employees, manager, visited);
      for i := 0 to |kids|
        invariant IsPartial(employees, manager, i, start, visited, nodes)
        invariant untouched ==> IsPartialFully(employees, manager, i, start, visited, nodes)
      {
        var kid := kids[i];
        if kid.id in visited {
          Skip(employees, manager, i, start, visited, nodes);
          continue;
        }
        StepBounds(employees, manager, i, start, visited, nodes);
        if untouched {
          StepIn(employees, manager, i, start, visited, nodes);
        }
        ghost var before := visited;
        visited := visited + {kid.id};
        var reports := Build(employees, Some(kid.id));
        Place(employees, manager, i, start, before, visited, nodes, reports);
        if untouched {
          PlaceFully(employees, manager, i, start, before, visited, nodes, reports);
        }
        nodes := nodes + [Node(kid, reports)];
      }
      Finish(employees, manager, start, visited, nodes);
    }

    method ReportsFiled(ghost employees: seq<Employee>, manager: Option<Uuid>) returns (kids: seq<Employee>)
      requires forall m :: Filed(m) == ReportsOf(employees, m)
      ensures kids == ReportsOf(employees, manager)
    {
      kids := Filed(manager);
    }
  }

  // ----- One turn of _build's loop -----

  /** What _build promises on any input: it places exactly the ids it visits,
      each once, and nobody reports to them unvisited. */
  ghost predicate IsBuilt(
    employees: seq<Employee>, manager: Option<Uuid>, before: set<Uuid>, after: set<Uuid>, nodes: seq<Node>)
  {
    && before <= after <= Ids(employees)
    && Ids(Preorder(nodes)) == after - before
    && UniqueIds(Preorder(nodes))
    && HangsFrom(employees, manager, nodes)
    && ReportsVisited(employees, manager, after - before, after)
  }

  /** What it adds when ids are unique and the manager's reports are untouched. */
  ghost predicate IsBuiltFully(
    employees: seq<Employee>, manager: Option<Uuid>, before: set<Uuid>, after: set<Uuid>, nodes: seq<Node>)
  {
    && IsUnfolding(employees, manager, nodes)
    && UpClosed(employees, after)
    && Descends(employees, manager, before, after)
  }

  /** IsBuilt with only the manager's first i reports dealt with. */
  ghost predicate IsPartial(
    employees: seq<Employee>, manager: Option<Uuid>, i: int, before: set<Uuid>, after: set<Uuid>, nodes: seq<Node>)
  {
    && before <= after <= Ids(employees)
    && Ids(Preorder(nodes)) == after - before
    && UniqueIds(Preorder(nodes))
    && HangsFrom(employees, manager, nodes)
    && 0 <= i <= |ReportsOf(employees, manager)|
    && (forall j :: 0 <= j < i ==> ReportsOf(employees, manager)[j].id in after)
    && (forall e :: e in employees && e.managerId.Some? && e.managerId.value in after - before ==> e.id in after)
  }

  ghost predicate IsPartialFully(
    employees: seq<Employee>, manager: Option<Uuid>, i: int, before: set<Uuid>, after: set<Uuid>, nodes: seq<Node>)
  {
    && 0 <= i <= |ReportsOf(employees, manager)|
    && UniqueIds(employees)
    && (manager.Some? ==> manager.value in before)
    && UpClosed(employees, after)
    && Descends(employees, manager, before, after)
    && (forall j :: i <= j < |ReportsOf(employees, manager)| ==> ReportsOf(employees, manager)[j].id !in after)
    && TopEmployees(nodes) == ReportsOf(employees, manager)[..i]
    && (forall j :: 0 <= j < |nodes| ==> IsUnfolding(employees, Some(nodes[j].employee.id), nodes[j].reports))
  }

  lemma Begin(employees: seq<Employee>, manager: Option<Uuid>, visited: set<Uuid>)
    requires visited <= Ids(employees)
    ensures IsPartial(employees, manager, 0, visited, visited, [])
    ensures Untouched(employees, manager, visited) ==> IsPartialFully(employees, manager, 0, visited, visited, [])
  {
    ReportsOfMembers(employees, manager);
    forall j | 0 <= j < |ReportsOf(employees, manager)|
      ensures ReportsOf(employees, manager)[j] in ReportsOf(employees, manager)
    {
    }
  }

  lemma Finish(employees: seq<Employee>, manager: Option<Uuid>, before: set<Uuid>, after: set<Uuid>, nodes: seq<Node>)
    requires IsPartial(employees, manager, |ReportsOf(employees, manager)|, before, after, nodes)
    ensures before <= after && IsBuilt(employees, manager, before, after, nodes)
    ensures IsPartialFully(employees, manager, |ReportsOf(employees, manager)|, before, after, nodes) ==>
              IsBuiltFully(employees, manager, before, after, nodes)
  {
    ReportsOfMembers(employees, manager);
  }

  /** A report already visited, which unique ids rule out. */
  lemma Skip(employees: seq<Employee>, manager: Option<Uuid>, i: int, before: set<Uuid>, after: set<Uuid>,
      nodes: seq<Node>)
    requires IsPartial(employees, manager, i, before, after, nodes)
    requires i < |ReportsOf(employees, manager)| && ReportsOf(employees, manager)[i].id in after
    ensures IsPartial(employees, manager, i + 1, before, after, nodes)
    ensures !IsPartialFully(employees, manager, i, before, after, nodes)
  {
  }

  /** The visited set stays inside the list's ids, and grows. */
  lemma StepBounds(employees: seq<Employee>, manager: Option<Uuid>, i: int, before: set<Uuid>,
      after: set<Uuid>, nodes: seq<Node>)
    requires IsPartial(employees, manager, i, before, after, nodes)
    requires i < |ReportsOf(employees, manager)| && ReportsOf(employees, manager)[i].id !in after
    ensures var id := ReportsOf(employees, manager)[i].id;
            && before <= after
            && after + {id} <= Ids(employees)
            && |Ids(employees) - (after + {id})| < |Ids(employees) - before|
  {
    var kid := ReportsOf(employees, manager)[i];
    ReportsOfMembers(employees, manager);
    assert kid in ReportsOf(employees, manager);
    assert kid.id in Ids(employees) - before;
    Smaller(Ids(employees) - (after + {kid.id}), Ids(employees) - before);
  }

  /** Stepping into an unvisited report finds that report's own reports untouched. */
  lemma StepIn(employees: seq<Employee>, manager: Option<Uuid>, i: int, before: set<Uuid>, after: set<Uuid>,
      nodes: seq<Node>)
    requires IsPartialFully(employees, manager, i, before, after, nodes) && before <= after
    requires i < |ReportsOf(employees, manager)|
    ensures var id := ReportsOf(employees, manager)[i].id; Untouched(employees, Some(id), after + {id})
  {
    var kid := ReportsOf(employees, manager)[i];
    ReportsOfMembers(employees, manager);
    assert kid in ReportsOf(employees, manager);
    forall e | e in employees && e.id == kid.id
      ensures e == kid
    {
      SameIdSameEmployee(employees, e, kid);
    }
  }

  lemma Place(employees: seq<Employee>, manager: Option<Uuid>, i: int,
              before: set<Uuid>, after: set<Uuid>, deeper: set<Uuid>, nodes: seq<Node>, reports: seq<Node>)
    requires IsPartial(employees, manager, i, before, after, nodes)
    requires i < |ReportsOf(employees, manager)| && ReportsOf(employees, manager)[i].id !in after
    requires var id := ReportsOf(employees, manager)[i].id; IsBuilt(employees, Some(id), after + {id}, deeper, reports)
    ensures IsPartial(employees, manager, i + 1, before, deeper, nodes
        + [Node(ReportsOf(employees, manager)[i], reports)])
  {
    hide Ids, UniqueIds, Preorder, ReportsOf;
    var kid := ReportsOf(employees, manager)[i];
    ReportsOfMembers(employees, manager);
    assert kid in ReportsOf(employees, manager);
    HangsFromAppend(employees, manager, nodes, Node(kid, reports));
    PlaceNode(nodes, Node(kid, reports));
    AddedSets(before, after, deeper, kid.id);
  }

  lemma HangsFromAppend(employees: seq<Employee>, manager: Option<Uuid>, nodes: seq<Node>, n: Node)
    requires HangsFrom(employees, manager, nodes) && HangsFrom(employees, Some(n.employee.id), n.reports)
    requires n.employee in employees && n.employee.managerId == manager
    ensures HangsFrom(employees, manager, nodes + [n])
  {
  }

  lemma AddedSets(before: set<Uuid>, after: set<Uuid>, deeper: set<Uuid>, id: Uuid)
    requires before <= after && after + {id} <= deeper && id !in after
    ensures after - before + {id} + (deeper - (after + {id})) == deeper - before
    ensures after - before !! deeper - (after + {id})
  {
  }

  lemma PlaceFully(employees: seq<Employee>, manager: Option<Uuid>, i: int,
                   before: set<Uuid>, after: set<Uuid>, deeper: set<Uuid>, nodes: seq<Node>, reports: seq<Node>)
    requires IsPartialFully(employees, manager, i, before, after, nodes) && before <= after
    requires i < |ReportsOf(employees, manager)| && ReportsOf(employees, manager)[i].id !in after
    requires var id := ReportsOf(employees, manager)[i].id;
             after + {id} <= deeper && IsBuiltFully(employees, Some(id), after + {id}, deeper, reports)
    ensures IsPartialFully(employees, manager, i + 1, before, deeper, nodes
        + [Node(ReportsOf(employees, manager)[i], reports)])
  {
    var all := ReportsOf(employees, manager);
    var kid := all[i];
    ReportsOfMembers(employees, manager);
    assert kid in all;
    assert all[..i + 1] == all[..i] + [kid];
    forall j | i + 1 <= j < |all|
      ensures all[j].id !in deeper
    {
      assert all[j] in all && all[j].id !in after && all[j].id != kid.id;
    }
    forall e | e in employees && e.id in deeper - before
      ensures e.managerId == manager || (e.managerId.Some? && e.managerId.value in deeper - before)
    {
      if e.id == kid.id {
        SameIdSameEmployee(employees, e, kid);
      }
    }
  }

  lemma Smaller(a: set<Uuid>, b: set<Uuid>)
    requires a < b
    ensures |a| < |b|
  {
    assert b - a != {} by {
      assert b == a + (b - a);
    }
    var x :| x in b - a;
    assert |b| == |b - {x}| + 1;
    SmallerOrEqual(a, b - {x});
  }

  lemma {:induction false} SmallerOrEqual(a: set<Uuid>, b: set<Uuid>)
    requires a <= b
    ensures |a| <= |b|
  {
    if a != {} {
      var x :| x in a;
      SmallerOrEqual(a - {x}, b - {x});
    }
  }

  /** build_org_chart. For any input, ids repeated or not: nobody is placed
      twice, and an id is placed exactly when a manager chain from it reaches
      someone with no manager. With unique ids the forest is the guard-free
      unfolding. */
  method BuildOrgChart(employees: seq<Employee>) returns (forest: seq<Node>)
    ensures UniqueIds(Preorder(forest))
    ensures forall id :: id in Ids(Preorder(forest)) <==> IsRooted(employees, id)
    ensures HangsFrom(employees, None, forest)
    ensures UniqueIds(employees) ==> IsUnfolding(employees, None, forest)
    ensures UniqueIds(employees) ==> KeepsInputOrder(employees, forest)
  {
    var builder := new Builder();
    builder.Group(employees);
    forest := builder.Build(employees, None);
    PlacedIffRooted(employees, forest);
    if UniqueIds(employees) {
      UnfoldingKeepsInputOrder(employees, forest);
    }
  }

  // ----- Sibling order -----

  /** x stands before y in one list. */
  predicate AreInOrder(siblings: seq<Node>, x: Employee, y: Employee) {
    exists a, b :: 0 <= a < b < |siblings| && siblings[a].employee == x && siblings[b].employee == y
  }

  /** They do among the reports of some node, in the forest or below, that holds
      this manager. */
  predicate AreReportsInOrder(forest: seq<Node>, manager: Uuid, x: Employee, y: Employee)
    decreases forest
  {
    exists i :: 0 <= i < |forest| &&
      (|| (forest[i].employee.id == manager && AreInOrder(forest[i].reports, x, y))
       || AreReportsInOrder(forest[i].reports, manager, x, y))
  }

  /** Of two placed employees with one manager, the one listed first stands first:
      among the roots without one, among that manager's reports with one. */
  ghost predicate KeepsInputOrder(employees: seq<Employee>, forest: seq<Node>) {
    forall i, j ::
      0 <= i < j < |employees| && employees[i].managerId == employees[j].managerId
      && IsRooted(employees, employees[i].id) && IsRooted(employees, employees[j].id) ==>
        match employees[i].managerId
        case None => AreInOrder(forest, employees[i], employees[j])
        case Some(manager) => AreReportsInOrder(forest, manager, employees[i], employees[j])
  }

  predicate Precedes(list: seq<Employee>, x: Employee, y: Employee) {
    exists a, b :: 0 <= a < b < |list| && list[a] == x && list[b] == y
  }

  /** Filtering by manager keeps each of their reports as often as it is listed. */
  lemma {:induction false} ReportsOfCounts(employees: seq<Employee>, manager: Option<Uuid>, e: Employee)
    ensures multiset(ReportsOf(employees, manager))[e] == if e.managerId == manager then multiset(employees)[e] else 0
  {
    if employees != [] {
      ReportsOfCounts(employees[..|employees| - 1], manager, e);
      assert employees == employees[..|employees| - 1] + [employees[|employees| - 1]];
    }
  }

  /** What it keeps, it keeps in order. */
  lemma {:induction false} ReportsKeepOrder(employees: seq<Employee>, manager: Option<Uuid>, i: nat, j: nat)
    requires i < j < |employees| && employees[i].managerId == manager == employees[j].managerId
    ensures Precedes(ReportsOf(employees, manager), employees[i], employees[j])
  {
    var front := employees[..|employees| - 1];
    if j < |front| {
      ReportsKeepOrder(front, manager, i, j);
      var a, b :| 0 <= a < b < |ReportsOf(front, manager)|
        && ReportsOf(front, manager)[a] == front[i] && ReportsOf(front, manager)[b] == front[j];
      assert ReportsOf(employees, manager)[a] == employees[i] && ReportsOf(employees, manager)[b] == employees[j];
    } else {
      ReportsOfMembers(front, manager);
      assert front[i] in ReportsOf(front, manager);
      var a :| 0 <= a < |ReportsOf(front, manager)| && ReportsOf(front, manager)[a] == front[i];
      assert ReportsOf(employees, manager)[|ReportsOf(front, manager)|] == employees[j];
      assert ReportsOf(employees, manager)[a] == employees[i];
    }
  }

  /** The list of an unfolding under a manager has that order. */
  lemma UnfoldedInOrder(employees: seq<Employee>, manager: Option<Uuid>, siblings: seq<Node>, i: nat, j: nat)
    requires IsUnfolding(employees, manager, siblings)
    requires i < j < |employees| && employees[i].managerId == manager == employees[j].managerId
    ensures AreInOrder(siblings, employees[i], employees[j])
  {
    ReportsKeepOrder(employees, manager, i, j);
    var a, b :| 0 <= a < b < |ReportsOf(employees, manager)|
      && ReportsOf(employees, manager)[a] == employees[i] && ReportsOf(employees, manager)[b] == employees[j];
    assert TopEmployees(siblings)[a] == siblings[a].employee && TopEmployees(siblings)[b] == siblings[b].employee;
  }

  lemma {:induction false} PlacedManagerKeepsOrder(
    employees: seq<Employee>, above: Option<Uuid>, forest: seq<Node>, manager: Uuid, i: nat, j: nat)
    requires forall k :: 0 <= k < |forest| ==> IsUnfolding(employees, Some(forest[k].employee.id), forest[k].reports)
    requires manager in Ids(Preorder(forest))
    requires i < j < |employees| && employees[i].managerId == Some(manager) == employees[j].managerId
    ensures AreReportsInOrder(forest, manager, employees[i], employees[j])
    decreases forest
  {
    var first := forest[0];
    if first.employee.id == manager {
      UnfoldedInOrder(employees, Some(manager), first.reports, i, j);
    } else if manager in Ids(Preorder(first.reports)) {
      PlacedManagerKeepsOrder(employees, Some(first.employee.id), first.reports, manager, i, j);
    } else {
      var e :| e in Preorder(forest) && e.id == manager;
      assert e in Preorder(forest[1..]);
      PlacedManagerKeepsOrder(employees, above, forest[1..], manager, i, j);
      var k :| 0 <= k < |forest[1..]| &&
        (|| (forest[1..][k].employee.id == manager && AreInOrder(forest[1..][k].reports, employees[i], employees[j]))
         || AreReportsInOrder(forest[1..][k].reports, manager, employees[i], employees[j]));
      assert forest[k + 1] == forest[1..][k];
    }
  }

  lemma UnfoldingKeepsInputOrder(employees: seq<Employee>, forest: seq<Node>)
    requires UniqueIds(employees) && IsUnfolding(employees, None, forest)
    requires forall id :: id in Ids(Preorder(forest)) <==> IsRooted(employees, id)
    ensures KeepsInputOrder(employees, forest)
  {
    forall i, j |
      0 <= i < j < |employees| && employees[i].managerId == employees[j].managerId
      && IsRooted(employees, employees[i].id) && IsRooted(employees, employees[j].id)
      ensures match employees[i].managerId
              case None => AreInOrder(forest, employees[i], employees[j])
              case Some(manager) => AreReportsInOrder(forest, manager, employees[i], employees[j])
    {
      match employees[i].managerId {
        case None => UnfoldedInOrder(employees, None, forest, i, j);
        case Some(manager) =>
          ManagerIsRooted(employees, employees[i]);
          PlacedManagerKeepsOrder(employees, None, forest, manager, i, j);
      }
    }
  }

  lemma ManagerIsRooted(employees: seq<Employee>, e: Employee)
    requires UniqueIds(employees) && e in employees && e.managerId.Some? && IsRooted(employees, e.id)
    ensures IsRooted(employees, e.managerId.value)
  {
    var k: nat :| ChainEnds(employees, e.id, k);
    var f :| f in employees && f.id == e.id &&
      (f.managerId.None? || (k > 0 && ChainEnds(employees, f.managerId.value, k - 1)));
    SameIdSameEmployee(employees, e, f);
  }

  // ----- Who is placed -----

  lemma PlacedIffRooted(employees: seq<Employee>, forest: seq<Node>)
    requires HangsFrom(employees, None, forest)
    requires ReportsVisited(employees, None, Ids(Preorder(forest)), Ids(Preorder(forest)))
    ensures forall id :: id in Ids(Preorder(forest)) <==> IsRooted(employees, id)
  {
    forall id
      ensures id in Ids(Preorder(forest)) <==> IsRooted(employees, id)
    {
      if id in Ids(Preorder(forest)) {
        var e :| e in Preorder(forest) && e.id == id;
        PlacedAreRooted(employees, None, 0, forest, e);
      }
      if k: nat :| ChainEnds(employees, id, k) {
        RootedArePlaced(employees, Ids(Preorder(forest)), id, k);
      }
    }
  }

  lemma {:induction false} PlacedAreRooted(employees: seq<Employee>, manager: Option<Uuid>, k: nat,
      forest: seq<Node>, e: Employee)
    requires HangsFrom(employees, manager, forest) && e in Preorder(forest)
    requires manager.Some? ==> ChainEnds(employees, manager.value, k)
    ensures IsRooted(employees, e.id)
    decreases forest
  {
    var top := forest[0].employee;
    assert ChainEnds(employees, top.id, k + 1);
    if e == top {
    } else if e in Preorder(forest[0].reports) {
      PlacedAreRooted(employees, Some(top.id), k + 1, forest[0].reports, e);
    } else {
      PlacedAreRooted(employees, manager, k, forest[1..], e);
    }
  }

  lemma {:induction false} RootedArePlaced(employees: seq<Employee>, placed: set<Uuid>, id: Uuid, k: nat)
    requires ReportsVisited(employees, None, placed, placed)
    requires ChainEnds(employees, id, k)
    ensures id in placed
    decreases k
  {
    var e :| e in employees && e.id == id &&
      (e.managerId.None? || (k > 0 && ChainEnds(employees, e.managerId.value, k - 1)));
    if e.managerId.Some? {
      RootedArePlaced(employees, placed, e.managerId.value, k - 1);
    }
  }

  /** Members of a manager cycle, people under a manager who is not in the
      list, and everyone below either, are left out: any group whose members
      all report into the group or to a missing id. */
  lemma {:induction false} UnrootedGroupIsAbsent(employees: seq<Employee>, group: set<Uuid>, id: Uuid, k: nat)
    requires forall e :: e in employees && e.id in group ==>
               e.managerId.Some? && (e.managerId.value in group || e.managerId.value !in Ids(employees))
    requires id in group
    ensures !ChainEnds(employees, id, k)
    decreases k
  {
    if ChainEnds(employees, id, k) {
      var e :| e in employees && e.id == id &&
        (e.managerId.None? || (k > 0 && ChainEnds(employees, e.managerId.value, k - 1)));
      if e.managerId.value in group {
        UnrootedGroupIsAbsent(employees, group, e.managerId.value, k - 1);
      }
    }
  }

  // ----- The unfolding as a specification -----

  /** The unfolding of a list is one forest, so BuildOrgChart is determined by it. */
  lemma {:induction false} UnfoldingIsUnique(employees: seq<Employee>, manager: Option<Uuid>, a: seq<Node>,
      b: seq<Node>)
    requires IsUnfolding(employees, manager, a) && IsUnfolding(employees, manager, b)
    ensures a == b
    decreases a
  {
    assert |a| == |TopEmployees(a)| == |TopEmployees(b)| == |b|;
    forall i | 0 <= i < |a|
      ensures a[i] == b[i]
    {
      assert a[i].employee == TopEmployees(a)[i] == TopEmployees(b)[i] == b[i].employee;
      UnfoldingIsUnique(employees, Some(a[i].employee.id), a[i].reports, b[i].reports);
    }
  }

  /** With unique ids the preorder is a permutation of the input exactly when
      everyone's manager chain ends: no cycle and no missing manager. */
  lemma PreorderIsPermutationIffAllRooted(employees: seq<Employee>, forest: seq<Node>)
    requires UniqueIds(employees) && UniqueIds(Preorder(forest))
    requires HangsFrom(employees, None, forest)
    requires forall id :: id in Ids(Preorder(forest)) <==> IsRooted(employees, id)
    ensures multiset(Preorder(forest)) == multiset(employees)
            <==> forall e :: e in employees ==> IsRooted(employees, e.id)
  {
    var order := Preorder(forest);
    if multiset(order) == multiset(employees) {
      forall e | e in employees
        ensures IsRooted(employees, e.id)
      {
        assert e in multiset(order);
        assert e.id in Ids(order);
      }
    }
    if forall e :: e in employees ==> IsRooted(employees, e.id) {
      forall e
        ensures multiset(order)[e] == multiset(employees)[e]
      {
        UniqueIdsOccurOnce(order, e);
        UniqueIdsOccurOnce(employees, e);
        if e in order {
          PlacedAreListed(employees, None, forest, e);
        }
        if e in employees {
          assert e.id in Ids(order);
          var o :| o in order && o.id == e.id;
          PlacedAreListed(employees, None, forest, o);
          SameIdSameEmployee(employees, o, e);
        }
      }
    }
  }

  lemma {:induction false} PlacedAreListed(employees: seq<Employee>, manager: Option<Uuid>, forest: seq<Node>,
      e: Employee)
    requires HangsFrom(employees, manager, forest) && e in Preorder(forest)
    ensures e in employees
    decreases forest
  {
    var top := forest[0].employee;
    if e == top {
    } else if e in Preorder(forest[0].reports) {
      PlacedAreListed(employees, Some(top.id), forest[0].reports, e);
    } else {
      PlacedAreListed(employees, manager, forest[1..], e);
    }
  }

  lemma {:induction false} UniqueIdsOccurOnce(employees: seq<Employee>, e: Employee)
    requires UniqueIds(employees)
    ensures multiset(employees)[e] == if e in employees then 1 else 0
  {
    if employees != [] {
      var front, last := employees[..|employees| - 1], employees[|employees| - 1];
      assert employees == front + [last];
      UniqueIdsOccurOnce(front, e);
    }
  }
}
