/** The application state: the list of groups and the id of the group being
    edited, with the handlers that add, remove and change groups, people and
    expenses. Each handler builds a new state from the old one; the ids and
    dates that the program takes from the clock are parameters here. */
module App {
  import opened Types
  import opened Lists

  datatype State = State(groups: seq<Group>, activeGroupId: Option<string>)

  /** No groups, none selected. */
  const Initial: State := State([], None)

  /** `groups.find(g => g.id === id)`: the first group with the id, and
      nothing when the id is null. */
  function Find(groups: seq<Group>, id: Option<string>): (r: Option<Group>)
    ensures r.None? <==> id.None? || forall g :: g in groups ==> g.id != id.value
    ensures r.Some? ==> r.value in groups && r.value.id == id.value
    ensures forall k :: 0 <= k < |groups| && id == Some(groups[k].id) && (forall j :: 0 <= j < k ==> groups[j].id != groups[k].id)
                        ==> r == Some(groups[k])
  {
    if id.None? || groups == [] then None
    else if groups[0].id == id.value then Some(groups[0])
    else Find(groups[1..], id)
  }

  /** The selected group: a group with the selected id, or nothing when no
      group is selected or none has that id. */
  function ActiveGroup(s: State): (r: Option<Group>)
    ensures r.None? <==> s.activeGroupId.None? || forall g :: g in s.groups ==> g.id != s.activeGroupId.value
    ensures r.Some? ==> r.value in s.groups && Some(r.value.id) == s.activeGroupId
  {
    Find(s.groups, s.activeGroupId)
  }

  // ------------------------------------------------------------------------
  // Groups

  function OtherGroup(id: string): Group -> bool
  {
    (g: Group) => g.id != id
  }

  /** addGroup: a new empty group at the end of the list; the selection stays. */
  function AddGroup(s: State, newId: string, name: string, createdAt: Date): (r: State)
    ensures r.activeGroupId == s.activeGroupId
    ensures |r.groups| == |s.groups| + 1 && r.groups[..|s.groups|] == s.groups
    ensures r.groups[|s.groups|] == Group(newId, name, [], [], createdAt)
  {
    State(s.groups + [Group(newId, name, [], [], createdAt)], s.activeGroupId)
  }

  /** removeGroup: drops every group with the id, and clears the selection
      exactly when it was that id. */
  function RemoveGroup(s: State, id: string): (r: State)
    ensures forall g :: g in r.groups <==> g in s.groups && g.id != id
    ensures r.activeGroupId.None? <==> s.activeGroupId.None? || s.activeGroupId == Some(id)
    ensures r.activeGroupId.Some? ==> r.activeGroupId == s.activeGroupId
  {
    State(Filter(s.groups, OtherGroup(id)), if s.activeGroupId == Some(id) then None else s.activeGroupId)
  }

  /** `groups.map(group => group.id === g.id ? g : group)` */
  function Replace(groups: seq<Group>, g: Group): (r: seq<Group>)
    ensures |r| == |groups|
    ensures forall i :: 0 <= i < |groups| ==> r[i] == if groups[i].id == g.id then g else groups[i]
  {
    if groups == [] then []
    else [if groups[0].id == g.id then g else groups[0]] + Replace(groups[1..], g)
  }

  /** updateGroup: every group with the id of `g` becomes `g`; the others and
      the selection stay. */
  function UpdateGroup(s: State, g: Group): (r: State)
    ensures r.activeGroupId == s.activeGroupId && |r.groups| == |s.groups|
    ensures forall i :: 0 <= i < |s.groups| && s.groups[i].id != g.id ==> r.groups[i] == s.groups[i]
    ensures forall i :: 0 <= i < |s.groups| && s.groups[i].id == g.id ==> r.groups[i] == g
  {
    State(Replace(s.groups, g), s.activeGroupId)
  }

  /** Appending a group changes what `Find` returns only when no earlier group had the id. */
  lemma {:induction false} FindAppend(groups: seq<Group>, g: Group, id: Option<string>)
    ensures Find(groups + [g], id)
         == if Find(groups, id).Some? then Find(groups, id) else if id == Some(g.id) then Some(g) else None
  {
    if id.Some? && groups != [] {
      assert (groups + [g])[0] == groups[0] && (groups + [g])[1..] == groups[1..] + [g];
      FindAppend(groups[1..], g, id);
    }
  }

  /** After `Replace`, looking up the id of `g` gives `g` (when some group
      had that id), and looking up any other id gives what it gave before. */
  lemma {:induction false} FindAfterReplace(groups: seq<Group>, g: Group, id: string)
    ensures Find(Replace(groups, g), Some(id))
         == if id != g.id then Find(groups, Some(id))
            else if Find(groups, Some(id)).Some? then Some(g) else None
  {
    if groups != [] {
      assert Replace(groups, g)[1..] == Replace(groups[1..], g);
      FindAfterReplace(groups[1..], g, id);
    }
  }

  /** Removing the groups with one id does not change the lookup of another. */
  lemma {:induction false} FindAfterFilter(groups: seq<Group>, id: string, other: string)
    requires other != id
    ensures Find(Filter(groups, OtherGroup(id)), Some(other)) == Find(groups, Some(other))
  {
    if groups != [] {
      var rest := Filter(groups[1..], OtherGroup(id));
      FindAfterFilter(groups[1..], id, other);
      if groups[0].id == id {
        assert Filter(groups, OtherGroup(id)) == rest;
      } else {
        assert Filter(groups, OtherGroup(id)) == [groups[0]] + rest;
        assert ([groups[0]] + rest)[1..] == rest;
      }
    }
  }

  /** After removeGroup the selected group is gone exactly when it was the one removed. */
  lemma ActiveAfterRemoveGroup(s: State, id: string)
    ensures ActiveGroup(RemoveGroup(s, id)) == if s.activeGroupId == Some(id) then None else ActiveGroup(s)
  {
    if s.activeGroupId.Some? && s.activeGroupId != Some(id) {
      FindAfterFilter(s.groups, id, s.activeGroupId.value);
    }
  }

  /** Adding a group and removing it by its id gives back the state, when
      the id was new and not selected. */
  lemma AddGroupThenRemove(s: State, newId: string, name: string, createdAt: Date)
    requires forall g :: g in s.groups ==> g.id != newId
    requires s.activeGroupId != Some(newId)
    ensures RemoveGroup(AddGroup(s, newId, name, createdAt), newId) == s
  {
    var g := Group(newId, name, [], [], createdAt);
    FilterConcat(s.groups, [g], OtherGroup(newId));
    FilterKeepsAll(s.groups, OtherGroup(newId));
    assert s.groups + [] == s.groups;
  }

  // ------------------------------------------------------------------------
  // People and expenses of the selected group

  /** The new state after `g` replaces the selected group: the lookup now
      finds `g`, every group with its id (the selected one and any later
      one sharing the id) is `g`, groups with another id are as they were,
      and the selection stays. */
  ghost predicate EditsActive(s: State, r: State, g: Group)
  {
    && ActiveGroup(s).Some? && g.id == ActiveGroup(s).value.id
    && r.activeGroupId == s.activeGroupId
    && ActiveGroup(r) == Some(g)
    && |r.groups| == |s.groups|
    && (forall i :: 0 <= i < |s.groups| && s.groups[i].id != g.id ==> r.groups[i] == s.groups[i])
    && (forall i :: 0 <= i < |s.groups| && s.groups[i].id == g.id ==> r.groups[i] == g)
  }

  /** updateGroup applied to an edited copy of the selected group. */
  lemma UpdateActive(s: State, g: Group)
    requires ActiveGroup(s).Some? && g.id == ActiveGroup(s).value.id
    ensures EditsActive(s, UpdateGroup(s, g), g)
  {
    FindAfterReplace(s.groups, g, g.id);
  }

  function OtherPerson(id: string): Person -> bool
  {
    (p: Person) => p.id != id
  }

  function NotPaidBy(id: string): Expense -> bool
  {
    (e: Expense) => e.paidBy != id
  }

  function OtherExpense(id: string): Expense -> bool
  {
    (e: Expense) => e.id != id
  }

  /** `people.map(person => person.id === id ? { ...person, name } : person)` */
  function Rename(people: seq<Person>, id: string, name: string): (r: seq<Person>)
    ensures |r| == |people|
    ensures forall i :: 0 <= i < |people| ==> r[i].id == people[i].id
    ensures forall i :: 0 <= i < |people| ==> r[i].name == if people[i].id == id then name else people[i].name
  {
    if people == [] then []
    else [if people[0].id == id then people[0].(name := name) else people[0]] + Rename(people[1..], id, name)
  }

  /** addPerson: the new person goes at the end of the selected group's people. */
  function AddPerson(s: State, newId: string, name: string): (r: State)
    ensures ActiveGroup(s).None? ==> r == s
    ensures ActiveGroup(s).Some? ==>
      var a := ActiveGroup(s).value;
      EditsActive(s, r, a.(people := a.people + [Person(newId, name)]))
  {
    match ActiveGroup(s)
    case None => s
    case Some(a) =>
      var g := a.(people := a.people + [Person(newId, name)]);
      UpdateActive(s, g);
      UpdateGroup(s, g)
  }

  /** removePerson: drops the people with the id and, with them, the
      expenses they paid. */
  function RemovePerson(s: State, id: string): (r: State)
    ensures ActiveGroup(s).None? ==> r == s
    ensures ActiveGroup(s).Some? ==>
      var a := ActiveGroup(s).value;
      EditsActive(s, r, a.(people := Filter(a.people, OtherPerson(id)), expenses := Filter(a.expenses, NotPaidBy(id))))
  {
    match ActiveGroup(s)
    case None => s
    case Some(a) =>
      var g := a.(people := Filter(a.people, OtherPerson(id)), expenses := Filter(a.expenses, NotPaidBy(id)));
      UpdateActive(s, g);
      UpdateGroup(s, g)
  }

  /** renamePerson: gives the people with the id the new name. */
  function RenamePerson(s: State, id: string, newName: string): (r: State)
    ensures ActiveGroup(s).None? ==> r == s
    ensures ActiveGroup(s).Some? ==>
      var a := ActiveGroup(s).value;
      EditsActive(s, r, a.(people := Rename(a.people, id, newName)))
  {
    match ActiveGroup(s)
    case None => s
    case Some(a) =>
      var g := a.(people := Rename(a.people, id, newName));
      UpdateActive(s, g);
      UpdateGroup(s, g)
  }

  /** addExpense: the new expense goes at the end of the selected group's expenses. */
  function AddExpense(s: State, newId: string, description: string, amount: real, paidBy: string, date: Date): (r: State)
    ensures ActiveGroup(s).None? ==> r == s
    ensures ActiveGroup(s).Some? ==>
      var a := ActiveGroup(s).value;
      EditsActive(s, r, a.(expenses := a.expenses + [Expense(newId, description, amount, paidBy, date)]))
  {
    match ActiveGroup(s)
    case None => s
    case Some(a) =>
      var g := a.(expenses := a.expenses + [Expense(newId, description, amount, paidBy, date)]);
      UpdateActive(s, g);
      UpdateGroup(s, g)
  }

  /** removeExpense: drops the expenses with the id. */
  function RemoveExpense(s: State, id: string): (r: State)
    ensures ActiveGroup(s).None? ==> r == s
    ensures ActiveGroup(s).Some? ==>
      var a := ActiveGroup(s).value;
      EditsActive(s, r, a.(expenses := Filter(a.expenses, OtherExpense(id))))
  {
    match ActiveGroup(s)
    case None => s
    case Some(a) =>
      var g := a.(expenses := Filter(a.expenses, OtherExpense(id)));
      UpdateActive(s, g);
      UpdateGroup(s, g)
  }

  // ------------------------------------------------------------------------
  // Properties of the handlers

  /** Every expense is paid by one of the group's people. */
  predicate PayersKnown(g: Group)
  {
    forall e :: e in g.expenses ==> exists p :: p in g.people && p.id == e.paidBy
  }

  /** removePerson removes exactly the people with the id and exactly the
      expenses they paid; every other person and expense keeps all its copies. */
  lemma RemovePersonExactly(people: seq<Person>, expenses: seq<Expense>, id: string)
    ensures forall p :: multiset(Filter(people, OtherPerson(id)))[p] == if p.id == id then 0 else multiset(people)[p]
    ensures forall e :: multiset(Filter(expenses, NotPaidBy(id)))[e] == if e.paidBy == id then 0 else multiset(expenses)[e]
  {
    FilterMultiset(people, OtherPerson(id));
    FilterMultiset(expenses, NotPaidBy(id));
  }

  /** removeExpense removes exactly the expenses with the id. */
  lemma RemoveExpenseExactly(expenses: seq<Expense>, id: string)
    ensures forall e :: multiset(Filter(expenses, OtherExpense(id)))[e] == if e.id == id then 0 else multiset(expenses)[e]
  {
    FilterMultiset(expenses, OtherExpense(id));
  }

  /** The cascade in removePerson keeps every payer known. */
  lemma RemovePersonKeepsPayers(g: Group, id: string)
    requires PayersKnown(g)
    ensures PayersKnown(g.(people := Filter(g.people, OtherPerson(id)), expenses := Filter(g.expenses, NotPaidBy(id))))
  {
    var people := Filter(g.people, OtherPerson(id));
    forall e | e in Filter(g.expenses, NotPaidBy(id))
      ensures exists p :: p in people && p.id == e.paidBy
    {
      var p :| p in g.people && p.id == e.paidBy;
      assert p in people;
    }
  }

  /** Without the cascade the payers would not stay known: a group whose only
      person paid an expense loses that payer. */
  lemma RemovingPayerAlone()
    ensures var g := Group("g", "Trip", [Person("a", "Anna")], [Expense("e", "Fuel", 40.0, "a", Date(0))], Date(0));
      PayersKnown(g) && !PayersKnown(g.(people := Filter(g.people, OtherPerson("a"))))
  {
    var g := Group("g", "Trip", [Person("a", "Anna")], [Expense("e", "Fuel", 40.0, "a", Date(0))], Date(0));
    assert g.people[0] in g.people;
    assert Filter(g.people, OtherPerson("a")) == [];
    assert g.expenses[0] in g.expenses;
  }

  /** addExpense keeps every payer known exactly when its payer is one of the people. */
  lemma AddExpenseKeepsPayers(g: Group, e: Expense)
    requires PayersKnown(g)
    ensures PayersKnown(g.(expenses := g.expenses + [e])) <==> exists p :: p in g.people && p.id == e.paidBy
  {
    assert e in g.expenses + [e];
  }

  /** renamePerson keeps every payer known: ids do not change. */
  lemma RenameKeepsPayers(g: Group, id: string, name: string)
    requires PayersKnown(g)
    ensures PayersKnown(g.(people := Rename(g.people, id, name)))
  {
    var people := Rename(g.people, id, name);
    forall e | e in g.expenses
      ensures exists p :: p in people && p.id == e.paidBy
    {
      var p :| p in g.people && p.id == e.paidBy;
      var k :| 0 <= k < |g.people| && g.people[k] == p;
      assert people[k] in people;
    }
  }

  /** A person added with a new id and removed again leaves the group as it
      was, when nobody had that id and every payer was known. */
  lemma AddPersonThenRemove(g: Group, p: Person)
    requires PayersKnown(g) && forall q :: q in g.people ==> q.id != p.id
    ensures var added := g.(people := g.people + [p]);
      added.(people := Filter(added.people, OtherPerson(p.id)), expenses := Filter(added.expenses, NotPaidBy(p.id))) == g
  {
    FilterConcat(g.people, [p], OtherPerson(p.id));
    FilterKeepsAll(g.people, OtherPerson(p.id));
    assert g.people + [] == g.people;
    forall e | e in g.expenses
      ensures NotPaidBy(p.id)(e)
    {
      var q :| q in g.people && q.id == e.paidBy;
    }
    FilterKeepsAll(g.expenses, NotPaidBy(p.id));
  }

  /** An expense added with a new id and removed again leaves the group as it was. */
  lemma AddExpenseThenRemove(g: Group, e: Expense)
    requires forall x :: x in g.expenses ==> x.id != e.id
    ensures var added := g.(expenses := g.expenses + [e]);
      added.(expenses := Filter(added.expenses, OtherExpense(e.id))) == g
  {
    FilterConcat(g.expenses, [e], OtherExpense(e.id));
    FilterKeepsAll(g.expenses, OtherExpense(e.id));
    assert g.expenses + [] == g.expenses;
  }

  /** The selection names a group, or nothing. */
  predicate Coherent(s: State)
  {
    s.activeGroupId.Some? ==> ActiveGroup(s).Some?
  }

  /** Every handler keeps the selection pointing at a group. */
  lemma HandlersKeepCoherent(s: State, id: string, name: string, createdAt: Date, g: Group, amount: real)
    requires Coherent(s)
    ensures Coherent(Initial)
    ensures Coherent(AddGroup(s, id, name, createdAt))
    ensures Coherent(RemoveGroup(s, id))
    ensures Coherent(UpdateGroup(s, g))
    ensures Coherent(AddPerson(s, id, name)) && Coherent(RemovePerson(s, id)) && Coherent(RenamePerson(s, id, name))
    ensures Coherent(AddExpense(s, id, name, amount, name, createdAt)) && Coherent(RemoveExpense(s, id))
  {
    FindAppend(s.groups, Group(id, name, [], [], createdAt), s.activeGroupId);
    ActiveAfterRemoveGroup(s, id);
    if s.activeGroupId.Some? {
      FindAfterReplace(s.groups, g, s.activeGroupId.value);
    }
  }
}
