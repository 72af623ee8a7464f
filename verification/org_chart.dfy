/** The organisation chart composite of prac10/src/Main1.java: `Employee`
    leaves and `Department` nodes holding an ordered list of components.
    Java object identity is carried as an explicit `id`; the budget is kept
    in whole currency units instead of `double`. */
module OrgChart {
  import opened Wrappers
  import Seqs
  import Strings

  type Id = nat

  datatype Unit =
    | Employee(id: Id, name: string, position: string, salary: int)
    | Department(id: Id, name: string, components: seq<Unit>)

  function IdOf(u: Unit): Id { u.id }

  function NameOf(u: Unit): string { u.name }

  predicate IsEmployee(u: Unit) { u.Employee? }

  // ---------------------------------------------------------------------
  // Aggregates: getTotalEmployees and getBudget

  /** `getTotalEmployees`: an employee counts once, a department adds up its
      components in list order. */
  function Headcount(u: Unit): nat
  {
    match u
    case Employee(_, _, _, _) => 1
    case Department(_, _, cs) => HeadcountOf(cs)
  }

  function HeadcountOf(cs: seq<Unit>): nat
  {
    if |cs| == 0 then 0 else Headcount(cs[0]) + HeadcountOf(cs[1..])
  }

  /** `getBudget`: an employee contributes its salary, a department the sum
      over its components in list order. */
  function Budget(u: Unit): int
  {
    match u
    case Employee(_, _, _, s) => s
    case Department(_, _, cs) => BudgetOf(cs)
  }

  function BudgetOf(cs: seq<Unit>): int
  {
    if |cs| == 0 then 0 else Budget(cs[0]) + BudgetOf(cs[1..])
  }

  // ---------------------------------------------------------------------
  // Reference views of a subtree: its nodes and its employees in pre-order

  /** Every node of the subtree, depth-first, a node before its components. */
  function Nodes(u: Unit): (r: seq<Unit>)
    ensures |r| >= 1 && r[0] == u
  {
    match u
    case Employee(_, _, _, _) => [u]
    case Department(_, _, cs) => [u] + NodesOf(cs)
  }

  function NodesOf(cs: seq<Unit>): seq<Unit>
  {
    if |cs| == 0 then [] else Nodes(cs[0]) + NodesOf(cs[1..])
  }

  /** The employee leaves of the subtree in pre-order. */
  function Employees(u: Unit): (r: seq<Unit>)
    ensures forall i | 0 <= i < |r| :: r[i].Employee?
  {
    match u
    case Employee(_, _, _, _) => [u]
    case Department(_, _, cs) => EmployeesOf(cs)
  }

  function EmployeesOf(cs: seq<Unit>): (r: seq<Unit>)
    ensures forall i | 0 <= i < |r| :: r[i].Employee?
  {
    if |cs| == 0 then [] else Employees(cs[0]) + EmployeesOf(cs[1..])
  }

  /** Sum of the salaries of a list of employees. */
  function SalaryTotal(es: seq<Unit>): int
  {
    if |es| == 0 then 0 else (if es[0].Employee? then es[0].salary else 0) + SalaryTotal(es[1..])
  }

  lemma {:induction false} SalaryTotalAppend(a: seq<Unit>, b: seq<Unit>)
    ensures SalaryTotal(a + b) == SalaryTotal(a) + SalaryTotal(b)
  {
    if |a| > 0 {
      assert (a + b)[1..] == a[1..] + b;
      SalaryTotalAppend(a[1..], b);
    } else {
      assert a + b == b;
    }
  }

  /** The employees of a subtree are exactly its nodes with the departments
      filtered out, in the same pre-order. */
  lemma {:induction false} EmployeesAreEmployeeNodes(u: Unit)
    ensures Employees(u) == Seqs.Filter(IsEmployee, Nodes(u))
  {
    match u
    case Employee(_, _, _, _) =>
    case Department(_, _, cs) =>
      EmployeesAreEmployeeNodesOf(cs);
      Seqs.FilterAppend(IsEmployee, [u], NodesOf(cs));
  }

  lemma {:induction false} EmployeesAreEmployeeNodesOf(cs: seq<Unit>)
    ensures EmployeesOf(cs) == Seqs.Filter(IsEmployee, NodesOf(cs))
  {
    if |cs| > 0 {
      EmployeesAreEmployeeNodes(cs[0]);
      EmployeesAreEmployeeNodesOf(cs[1..]);
      Seqs.FilterAppend(IsEmployee, Nodes(cs[0]), NodesOf(cs[1..]));
    }
  }

  /** The headcount is the number of employee leaves: departments themselves
      contribute nothing. */
  lemma {:induction false} HeadcountCountsEmployees(u: Unit)
    ensures Headcount(u) == |Employees(u)|
  {
    match u
    case Employee(_, _, _, _) =>
    case Department(_, _, cs) => HeadcountCountsEmployeesOf(cs);
  }

  lemma {:induction false} HeadcountCountsEmployeesOf(cs: seq<Unit>)
    ensures HeadcountOf(cs) == |EmployeesOf(cs)|
  {
    if |cs| > 0 {
      HeadcountCountsEmployees(cs[0]);
      HeadcountCountsEmployeesOf(cs[1..]);
    }
  }

  /** The budget is the sum of the salaries of the employee leaves. */
  lemma {:induction false} BudgetSumsSalaries(u: Unit)
    ensures Budget(u) == SalaryTotal(Employees(u))
  {
    match u
    case Employee(_, _, _, _) =>
      assert [u][1..] == [];
    case Department(_, _, cs) => BudgetSumsSalariesOf(cs);
  }

  lemma {:induction false} BudgetSumsSalariesOf(cs: seq<Unit>)
    ensures BudgetOf(cs) == SalaryTotal(EmployeesOf(cs))
  {
    if |cs| > 0 {
      BudgetSumsSalaries(cs[0]);
      BudgetSumsSalariesOf(cs[1..]);
      SalaryTotalAppend(Employees(cs[0]), EmployeesOf(cs[1..]));
    }
  }

  /** Totals of a list of components split over a concatenation. */
  lemma {:induction false} TotalsOfAppend(a: seq<Unit>, b: seq<Unit>)
    ensures HeadcountOf(a + b) == HeadcountOf(a) + HeadcountOf(b)
    ensures BudgetOf(a + b) == BudgetOf(a) + BudgetOf(b)
    ensures EmployeesOf(a + b) == EmployeesOf(a) + EmployeesOf(b)
    ensures NodesOf(a + b) == NodesOf(a) + NodesOf(b)
  {
    if |a| > 0 {
      assert (a + b)[1..] == a[1..] + b;
      TotalsOfAppend(a[1..], b);
    } else {
      assert a + b == b;
    }
  }

  // ---------------------------------------------------------------------
  // addComponent and removeComponent

  /** `addComponent`: appends at the end of the component list. */
  function AddComponent(d: Unit, c: Unit): (r: Unit)
    requires d.Department?
    ensures r.Department? && r.id == d.id && r.name == d.name
    ensures |r.components| == |d.components| + 1
    ensures r.components[..|d.components|] == d.components
    ensures r.components[|d.components|] == c
  {
    d.(components := d.components + [c])
  }

  /** Adding a component raises the totals by exactly the component's own
      totals and places its employees after the existing ones. */
  lemma AddComponentTotals(d: Unit, c: Unit)
    requires d.Department?
    ensures Headcount(AddComponent(d, c)) == Headcount(d) + Headcount(c)
    ensures Budget(AddComponent(d, c)) == Budget(d) + Budget(c)
    ensures Employees(AddComponent(d, c)) == Employees(d) + Employees(c)
  {
    TotalsOfAppend(d.components, [c]);
    assert [c][1..] == [];
  }

  /** `removeComponent`: drops the first component that is the given object,
      leaving the order of the others; nothing happens when it is absent. */
  function RemoveComponent(d: Unit, c: Unit): (r: Unit)
    requires d.Department?
    ensures r.Department? && r.id == d.id && r.name == d.name
    ensures Seqs.FirstIndex(d.components, IdOf, c.id).None? ==> r == d
    ensures Seqs.FirstIndex(d.components, IdOf, c.id).Some? ==>
              var i := Seqs.FirstIndex(d.components, IdOf, c.id).value;
              r.components == d.components[..i] + d.components[i + 1..]
  {
    d.(components := Seqs.RemoveFirst(d.components, IdOf, c.id))
  }

  /** Removing a present component lowers the totals by exactly that
      component's totals. */
  lemma RemoveComponentTotals(d: Unit, c: Unit)
    requires d.Department?
    requires Seqs.FirstIndex(d.components, IdOf, c.id).Some?
    ensures var removed := d.components[Seqs.FirstIndex(d.components, IdOf, c.id).value];
            && Headcount(RemoveComponent(d, c)) == Headcount(d) - Headcount(removed)
            && Budget(RemoveComponent(d, c)) == Budget(d) - Budget(removed)
  {
    var cs := d.components;
    var i := Seqs.FirstIndex(cs, IdOf, c.id).value;
    assert cs == cs[..i] + [cs[i]] + cs[i + 1..];
    TotalsOfAppend(cs[..i] + [cs[i]], cs[i + 1..]);
    TotalsOfAppend(cs[..i], [cs[i]]);
    TotalsOfAppend(cs[..i], cs[i + 1..]);
    assert [cs[i]][1..] == [];
  }

  // ---------------------------------------------------------------------
  // findEmployeeByName

  /** `findEmployeeByName`: searches the components in order, an employee by
      its exact name and a department by recursing into it; a department's
      own name is never matched. */
  function FindEmployeeByName(d: Unit, name: string): (r: Option<Unit>)
    requires d.Department?
    ensures r.Some? ==> r.value.Employee? && r.value.name == name && r.value in Employees(d)
    ensures r.None? <==> forall e | e in Employees(d) :: e.name != name
  {
    FindIn(d.components, name)
  }

  function FindIn(cs: seq<Unit>, name: string): (r: Option<Unit>)
    ensures r.Some? ==> r.value.Employee? && r.value.name == name && r.value in EmployeesOf(cs)
    ensures r.None? <==> forall e | e in EmployeesOf(cs) :: e.name != name
  {
    if |cs| == 0 then None
    else
      match cs[0]
      case Employee(_, n, _, _) =>
        if n == name then Some(cs[0]) else FindIn(cs[1..], name)
      case Department(_, _, sub) =>
        match FindIn(sub, name)
        case Some(e) => Some(e)
        case None => FindIn(cs[1..], name)
  }

  /** The first employee of a list with the given name. */
  function FirstNamed(es: seq<Unit>, name: string): Option<Unit>
  {
    match Seqs.FirstIndex(es, NameOf, name)
    case None => None
    case Some(i) => Some(es[i])
  }

  /** The search returns the first employee in pre-order whose name matches,
      or nothing. */
  lemma FindIsFirstInPreorder(d: Unit, name: string)
    requires d.Department?
    ensures FindEmployeeByName(d, name) == FirstNamed(Employees(d), name)
  {
    FindInIsFirst(d.components, name);
  }

  lemma {:induction false} FindInIsFirst(cs: seq<Unit>, name: string)
    ensures FindIn(cs, name) == FirstNamed(EmployeesOf(cs), name)
  {
    if |cs| > 0 {
      FindInIsFirst(cs[1..], name);
      FirstNamedAppend(Employees(cs[0]), EmployeesOf(cs[1..]), name);
      match cs[0]
      case Employee(_, _, _, _) =>
        assert Seqs.FirstIndex([cs[0]][1..], NameOf, name) == None;
      case Department(_, _, sub) =>
        FindInIsFirst(sub, name);
    }
  }

  lemma FirstNamedAppend(a: seq<Unit>, b: seq<Unit>, name: string)
    ensures FirstNamed(a + b, name)
            == if FirstNamed(a, name).Some? then FirstNamed(a, name) else FirstNamed(b, name)
  {
    Seqs.FirstIndexAppend(a, b, NameOf, name);
    match Seqs.FirstIndex(a, NameOf, name)
    case Some(i) => assert (a + b)[i] == a[i];
    case None =>
      match Seqs.FirstIndex(b, NameOf, name)
      case None =>
      case Some(j) => assert (a + b)[|a| + j] == b[j];
  }

  // ---------------------------------------------------------------------
  // setSalary through a handle into the tree

  /** The employee after `setSalary(s)` when it is the object `id`. */
  function Reset(e: Unit, id: Id, s: int): Unit
  {
    if e.Employee? && e.id == id then e.(salary := s) else e
  }

  /** `setSalary` on the employee object `id`: every place the tree holds that
      object sees the new salary. */
  function SetSalary(u: Unit, id: Id, s: int): (r: Unit)
    ensures r.id == u.id && r.name == u.name && r.Employee? == u.Employee?
  {
    match u
    case Employee(_, _, _, _) => Reset(u, id, s)
    case Department(i, n, cs) => Department(i, n, SetSalaryOf(cs, id, s))
  }

  function SetSalaryOf(cs: seq<Unit>, id: Id, s: int): (r: seq<Unit>)
    ensures |r| == |cs|
  {
    if |cs| == 0 then [] else [SetSalary(cs[0], id, s)] + SetSalaryOf(cs[1..], id, s)
  }

  /** How many of the employees are the object `id`, and their salaries. */
  function CountId(es: seq<Unit>, id: Id): nat
  {
    if |es| == 0 then 0 else (if es[0].Employee? && es[0].id == id then 1 else 0) + CountId(es[1..], id)
  }

  function SalaryOfId(es: seq<Unit>, id: Id): int
  {
    if |es| == 0 then 0 else (if es[0].Employee? && es[0].id == id then es[0].salary else 0) + SalaryOfId(es[1..], id)
  }

  lemma {:induction false} EmployeesOfSetSalary(u: Unit, id: Id, s: int)
    ensures Employees(SetSalary(u, id, s)) == Seqs.Map((e: Unit) => Reset(e, id, s), Employees(u))
  {
    match u
    case Employee(_, _, _, _) =>
    case Department(_, _, cs) => EmployeesOfSetSalaryOf(cs, id, s);
  }

  lemma {:induction false} EmployeesOfSetSalaryOf(cs: seq<Unit>, id: Id, s: int)
    ensures EmployeesOf(SetSalaryOf(cs, id, s)) == Seqs.Map((e: Unit) => Reset(e, id, s), EmployeesOf(cs))
  {
    if |cs| > 0 {
      var r := SetSalaryOf(cs, id, s);
      assert r[0] == SetSalary(cs[0], id, s) && r[1..] == SetSalaryOf(cs[1..], id, s);
      EmployeesOfSetSalary(cs[0], id, s);
      EmployeesOfSetSalaryOf(cs[1..], id, s);
      Seqs.MapAppend((e: Unit) => Reset(e, id, s), Employees(cs[0]), EmployeesOf(cs[1..]));
    }
  }

  lemma {:induction false} SalaryTotalOfReset(es: seq<Unit>, id: Id, s: int)
    ensures SalaryTotal(Seqs.Map((e: Unit) => Reset(e, id, s), es))
            == SalaryTotal(es) - SalaryOfId(es, id) + CountId(es, id) * s
  {
    if |es| > 0 {
      var m := Seqs.Map((e: Unit) => Reset(e, id, s), es);
      assert m[1..] == Seqs.Map((e: Unit) => Reset(e, id, s), es[1..]);
      SalaryTotalOfReset(es[1..], id, s);
    }
  }

  /** Setting an employee's salary leaves every headcount alone and moves the
      budget of every enclosing subtree by the new salary for each place the
      employee occupies, minus the salaries it had there. */
  lemma SetSalaryTotals(u: Unit, id: Id, s: int)
    ensures Headcount(SetSalary(u, id, s)) == Headcount(u)
    ensures Budget(SetSalary(u, id, s))
            == Budget(u) - SalaryOfId(Employees(u), id) + CountId(Employees(u), id) * s
  {
    var u' := SetSalary(u, id, s);
    EmployeesOfSetSalary(u, id, s);
    HeadcountCountsEmployees(u);
    HeadcountCountsEmployees(u');
    BudgetSumsSalaries(u);
    BudgetSumsSalaries(u');
    SalaryTotalOfReset(Employees(u), id, s);
  }

  lemma {:induction false} SoleOccurrence(es: seq<Unit>, e: Unit)
    requires e in es && e.Employee? && CountId(es, e.id) == 1
    ensures SalaryOfId(es, e.id) == e.salary
  {
    if es[0] != e {
      CountPositive(es[1..], e);
      SoleOccurrence(es[1..], e);
    } else {
      NoOccurrence(es[1..], e);
    }
  }

  lemma {:induction false} CountPositive(es: seq<Unit>, e: Unit)
    requires e in es && e.Employee?
    ensures CountId(es, e.id) >= 1
  {
    if es[0] != e {
      CountPositive(es[1..], e);
    }
  }

  lemma {:induction false} NoOccurrence(es: seq<Unit>, e: Unit)
    requires CountId(es, e.id) == 0
    ensures SalaryOfId(es, e.id) == 0
    ensures forall x | x in es && x.Employee? :: x.id != e.id
  {
    if |es| > 0 {
      NoOccurrence(es[1..], e);
    }
  }

  /** For an employee held exactly once in the tree, a salary change from
      `old` to `s` moves the budget by `s - old`. */
  lemma SetSalaryOfSoleEmployee(u: Unit, e: Unit, s: int)
    requires e in Employees(u) && CountId(Employees(u), e.id) == 1
    ensures Budget(SetSalary(u, e.id, s)) == Budget(u) + s - e.salary
    ensures Headcount(SetSalary(u, e.id, s)) == Headcount(u)
  {
    SetSalaryTotals(u, e.id, s);
    SoleOccurrence(Employees(u), e);
  }

  // ---------------------------------------------------------------------
  // displayHierarchy and displayAllEmployees, as the lines they print

  /** `Double.toString` of a whole salary below ten million. */
  function SalaryText(s: int): string
  {
    Strings.IntToString(s) + ".0"
  }

  function HierarchyLine(u: Unit): string
  {
    match u
    case Employee(_, n, p, s) => "Сотрудник: " + n + ", Должность: " + p + ", Зарплата: " + SalaryText(s)
    case Department(_, n, _) => "Отдел: " + n
  }

  /** `displayHierarchy`: a department's line, then its components' lines in
      list order. */
  function Hierarchy(u: Unit): seq<string>
  {
    match u
    case Employee(_, _, _, _) => [HierarchyLine(u)]
    case Department(_, n, cs) => ["Отдел: " + n] + HierarchyOf(cs)
  }

  function HierarchyOf(cs: seq<Unit>): seq<string>
  {
    if |cs| == 0 then [] else Hierarchy(cs[0]) + HierarchyOf(cs[1..])
  }

  /** The hierarchy listing has one line per node, in pre-order. */
  lemma {:induction false} HierarchyIsPreorder(u: Unit)
    ensures Hierarchy(u) == Seqs.Map(HierarchyLine, Nodes(u))
  {
    match u
    case Employee(_, _, _, _) =>
    case Department(_, _, cs) =>
      HierarchyIsPreorderOf(cs);
      Seqs.MapAppend(HierarchyLine, [u], NodesOf(cs));
  }

  lemma {:induction false} HierarchyIsPreorderOf(cs: seq<Unit>)
    ensures HierarchyOf(cs) == Seqs.Map(HierarchyLine, NodesOf(cs))
  {
    if |cs| > 0 {
      HierarchyIsPreorder(cs[0]);
      HierarchyIsPreorderOf(cs[1..]);
      Seqs.MapAppend(HierarchyLine, Nodes(cs[0]), NodesOf(cs[1..]));
    }
  }

  function ListingLine(u: Unit): string
  {
    match u
    case Employee(_, n, _, _) => " - " + n
    case Department(_, n, _) => "Список сотрудников отдела " + n + " и его подотделов:"
  }

  /** `displayAllEmployees`: a heading per department and a " - name" line
      per employee. */
  function AllEmployees(d: Unit): seq<string>
    requires d.Department?
  {
    [ListingLine(d)] + AllEmployeesOf(d.components)
  }

  function AllEmployeesOf(cs: seq<Unit>): seq<string>
  {
    if |cs| == 0 then []
    else
      (match cs[0]
       case Employee(_, n, _, _) => [" - " + n]
       case Department(_, _, _) => AllEmployees(cs[0]))
      + AllEmployeesOf(cs[1..])
  }

  /** The employee listing follows the same pre-order as the hierarchy, so
      its " - name" lines name the employees in pre-order. */
  lemma AllEmployeesIsPreorder(d: Unit)
    requires d.Department?
    ensures AllEmployees(d) == Seqs.Map(ListingLine, Nodes(d))
    ensures Employees(d) == Seqs.Filter(IsEmployee, Nodes(d))
  {
    AllEmployeesIsPreorderOf(d.components);
    Seqs.MapAppend(ListingLine, [d], NodesOf(d.components));
    EmployeesAreEmployeeNodes(d);
  }

  lemma {:induction false} AllEmployeesIsPreorderOf(cs: seq<Unit>)
    ensures AllEmployeesOf(cs) == Seqs.Map(ListingLine, NodesOf(cs))
  {
    if |cs| > 0 {
      AllEmployeesIsPreorderOf(cs[1..]);
      Seqs.MapAppend(ListingLine, Nodes(cs[0]), NodesOf(cs[1..]));
      match cs[0]
      case Employee(_, _, _, _) =>
      case Department(_, _, sub) =>
        AllEmployeesIsPreorderOf(sub);
        Seqs.MapAppend(ListingLine, [cs[0]], NodesOf(sub));
    }
  }

  // ---------------------------------------------------------------------
  // The client scenario of Main1.main

  const Alice := Employee(1, "Alice", "Developer", 70000)
  const Bob := Employee(2, "Bob", "Designer", 60000)
  const Charlie := Employee(3, "Charlie", "Manager", 90000)
  const DevDept := Department(4, "Development Department", [Alice])
  const DesignDept := Department(5, "Design Department", [Bob])
  const MainDept := Department(6, "Main Department", [Charlie, DevDept, DesignDept])

  lemma MainEmployees()
    ensures Employees(MainDept) == [Charlie, Alice, Bob]
  {
    var cs := MainDept.components;
    assert cs[1..] == [DevDept, DesignDept] && cs[1..][1..] == [DesignDept] && cs[1..][1..][1..] == [];
    assert [Alice][1..] == [] && [Bob][1..] == [];
    assert EmployeesOf([Alice]) == Employees(Alice) + EmployeesOf([]) == [Alice];
    assert EmployeesOf([Bob]) == Employees(Bob) + EmployeesOf([]) == [Bob];
    assert EmployeesOf(cs[1..][1..]) == [Bob];
    assert EmployeesOf(cs[1..]) == [Alice, Bob];
    assert EmployeesOf(cs) == Employees(Charlie) + EmployeesOf(cs[1..]);
  }

  /** Three employees and a budget of 220000; raising Alice to 75000 makes it
      225000. */
  lemma MainScenarioTotals()
    ensures Headcount(MainDept) == 3 && Budget(MainDept) == 220000
    ensures Budget(SetSalary(MainDept, Alice.id, 75000)) == 225000
  {
    var es := [Charlie, Alice, Bob];
    MainEmployees();
    assert es[1..] == [Alice, Bob] && es[1..][1..] == [Bob] && es[1..][1..][1..] == [];
    assert SalaryTotal(es[1..][1..]) == 60000 && CountId(es[1..][1..], Alice.id) == 0;
    assert SalaryTotal(es[1..]) == 130000 && CountId(es[1..], Alice.id) == 1;
    assert SalaryTotal(es) == 220000 && CountId(es, Alice.id) == 1;
    HeadcountCountsEmployees(MainDept);
    BudgetSumsSalaries(MainDept);
    SetSalaryOfSoleEmployee(MainDept, Alice, 75000);
  }

  /** Alice is found; neither an unknown name nor a department's own name
      is. */
  lemma MainScenarioSearch()
    ensures FindEmployeeByName(MainDept, "Alice") == Some(Alice)
    ensures FindEmployeeByName(MainDept, "Zoe") == None
    ensures FindEmployeeByName(MainDept, "Development Department") == None
  {
    var es := [Charlie, Alice, Bob];
    MainEmployees();
    FindIsFirstInPreorder(MainDept, "Alice");
    assert es[1..] == [Alice, Bob];
    assert Seqs.FirstIndex(es[1..], NameOf, "Alice") == Some(0);
  }
}
