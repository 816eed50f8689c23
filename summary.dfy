/** The summary panel: it computes the balances of a group, then the
    settlements, and shows both. The component renders the very Balance
    objects that it passed to calculateSettlements, so what it shows as the
    balances are the amounts left after the matching, not the balances. */
module Summary {
  import opened Types
  import opened Lists
  import opened Calculations
  import opened Sorting

  /** What the panel shows: the total, the share per person, one line per
      balance and the list of settlements. */
  datatype Report = Report(total: real, perPerson: real, shown: seq<Entry>, settlements: seq<Settlement>)

  /** The panel as written: the balance list it renders is read from the
      objects after calculateSettlements has written into them. With no
      people or no expenses it shows a placeholder instead (`None`). */
  method SummaryAsWritten(people: seq<Person>, expenses: seq<Expense>) returns (report: Option<Report>)
    ensures report.None? <==> |people| == 0 || |expenses| == 0
    ensures report.Some? ==>
      var o := Settle(people, Balances(people, expenses));
      report.value == Report(Total(expenses), Total(expenses) / (|people| as real), o.balances, o.settlements)
  {
    if |people| == 0 || |expenses| == 0 {
      return None;
    }
    var balances := CalculateBalances(people, expenses);
    var settlements := CalculateSettlements(people, balances);
    var total := Total(expenses);
    return Some(Report(total, total / (|people| as real), Snapshot(balances), settlements));
  }

  /** The panel as intended: the settlements are computed on copies, so the
      balance list shows the balances themselves. */
  method Summary(people: seq<Person>, expenses: seq<Expense>) returns (report: Option<Report>)
    ensures report.None? <==> |people| == 0 || |expenses| == 0
    ensures report.Some? ==>
      var b := Balances(people, expenses);
      report.value == Report(Total(expenses), Total(expenses) / (|people| as real), b, Settle(people, b).settlements)
  {
    if |people| == 0 || |expenses| == 0 {
      return None;
    }
    var balances := CalculateBalances(people, expenses);
    var shown := Snapshot(balances);
    var settlements := CalculateSettlementsOnCopies(people, balances);
    assert Snapshot(balances) == shown;
    var total := Total(expenses);
    return Some(Report(total, total / (|people| as real), shown, settlements));
  }

  /** As written, the shown balances are wrong whenever somebody is owed at
      least Epsilon and somebody owes at least Epsilon: the matching leaves
      one of the two sides below Epsilon. */
  lemma ShownDiffersFromBalances(people: seq<Person>, es: seq<Entry>, c: nat, d: nat)
    requires c < |es| && d < |es| && es[c].balance >= Epsilon && es[d].balance <= -Epsilon
    ensures Settle(people, es).balances != es
  {
    SettleCompletes(people, es);
    var o := Settle(people, es);
    assert o.balances[c].balance < Epsilon || Abs(o.balances[d].balance) < Epsilon;
  }

  /** Three people and one expense of 90 paid by the first: the balances are
      +60, -30 and -30. */
  lemma DinnerBalances()
    ensures Balances([Person("a", "Anna"), Person("b", "Ben"), Person("c", "Cem")],
                     [Expense("e", "Dinner", 90.0, "a", Date(0))])
            == [Entry("a", 60.0), Entry("b", -30.0), Entry("c", -30.0)]
  {
    var expenses := [Expense("e", "Dinner", 90.0, "a", Date(0))];
    assert Total(expenses) == 90.0;
    assert Filter(expenses, IsPaidBy("a")) == expenses;
    assert Filter(expenses, IsPaidBy("b")) == [] && Filter(expenses, IsPaidBy("c")) == [];
  }

  /** The creditors and debtors of that dinner: Anna alone is owed, Ben
      and Cem owe the same and keep their order. */
  lemma DinnerSides(v: seq<real>)
    requires v == [60.0, -30.0, -30.0]
    ensures Creditors(v) == [0] && Debtors(v) == [1, 2]
  {
    DinnerOwed(v);
    DinnerOwes(v);
    assert SortByKey(v, [1]) == [1];
    assert Insert(v, [1], 2) == [1, 2];
  }

  lemma DinnerOwed(v: seq<real>)
    requires v == [60.0, -30.0, -30.0]
    ensures Positions(v, Owed) == [0]
  {
    assert v[..2] == [60.0, -30.0] && v[..2][..1] == [60.0] && v[..2][..1][..0] == [];
    assert Owed(v[0]) && !Owed(v[1]) && !Owed(v[2]);
    assert Positions(v[..2][..1], Owed) == [0];
    assert Positions(v[..2], Owed) == Positions(v[..2][..1], Owed);
    assert Positions(v, Owed) == Positions(v[..2], Owed);
  }

  lemma DinnerOwes(v: seq<real>)
    requires v == [60.0, -30.0, -30.0]
    ensures Positions(v, Owes) == [1, 2]
  {
    assert v[..2] == [60.0, -30.0] && v[..2][..1] == [60.0] && v[..2][..1][..0] == [];
    assert !Owes(v[0]) && Owes(v[1]) && Owes(v[2]);
    assert Positions(v[..2][..1], Owes) == [];
    assert Positions(v[..2], Owes) == Positions(v[..2][..1], Owes) + [1];
    assert Positions(v, Owes) == Positions(v[..2], Owes) + [2];
  }

  /** The two rounds of the matching for that dinner: Ben pays Anna 30,
      then Cem pays Anna 30, and every balance is left at 0. */
  lemma DinnerRounds(people: seq<Person>, es: seq<Entry>)
    requires people == [Person("a", "Anna"), Person("b", "Ben"), Person("c", "Cem")]
    requires es == [Entry("a", 60.0), Entry("b", -30.0), Entry("c", -30.0)]
    ensures Settle(people, es)
         == Outcome([Settlement("Ben", "Anna", 30.0), Settlement("Cem", "Anna", 30.0)],
                    [Entry("a", 0.0), Entry("b", 0.0), Entry("c", 0.0)])
  {
    var v, ids := Values(es), Ids(es);
    assert v == [60.0, -30.0, -30.0] && ids == ["a", "b", "c"];
    DinnerSides(v);
    var cs, ds := [0], [1, 2];
    NameOfFirst(people, "a", 0);
    NameOfFirst(people, "b", 1);
    NameOfFirst(people, "c", 2);
    var m0 := Start(es);
    assert m0 == Cursors(v, 0, 0);
    AdvanceIs(ids, cs, ds, m0);
    var m1 := Advance(ids, cs, ds, m0);
    assert m1 == Cursors([30.0, 0.0, -30.0], 0, 1);
    AdvanceIs(ids, cs, ds, m1);
    var m2 := Advance(ids, cs, ds, m1);
    assert m2 == Cursors([0.0, 0.0, 0.0], 1, 2);
    assert Emitted(people, ids, cs, ds, m0) == [Settlement("Ben", "Anna", 30.0)];
    assert Emitted(people, ids, cs, ds, m1) == [Settlement("Cem", "Anna", 30.0)];
    assert Greedy(people, ids, cs, ds, m2) == Run([], [0.0, 0.0, 0.0]);
    assert Greedy(people, ids, cs, ds, m1) == Run([Settlement("Cem", "Anna", 30.0)], [0.0, 0.0, 0.0]);
  }

  /** For that dinner the panel as written shows every person as settled
      (Summary.tsx shows "Ausgeglichen" for a value within 0.01 of 0),
      although the balances are +60, -30 and -30. */
  lemma DinnerForThree()
    ensures var people := [Person("a", "Anna"), Person("b", "Ben"), Person("c", "Cem")];
      var b := [Entry("a", 60.0), Entry("b", -30.0), Entry("c", -30.0)];
      var o := Settle(people, b);
      && Balances(people, [Expense("e", "Dinner", 90.0, "a", Date(0))]) == b
      && o.settlements == [Settlement("Ben", "Anna", 30.0), Settlement("Cem", "Anna", 30.0)]
      && o.balances == [Entry("a", 0.0), Entry("b", 0.0), Entry("c", 0.0)]
      && o.balances != b
  {
    var people := [Person("a", "Anna"), Person("b", "Ben"), Person("c", "Cem")];
    DinnerBalances();
    var b := [Entry("a", 60.0), Entry("b", -30.0), Entry("c", -30.0)];
    DinnerRounds(people, b);
    var o := Settle(people, b);
    assert o.balances[0] != b[0];
  }
}
