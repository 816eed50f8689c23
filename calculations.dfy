/** The cost-splitting engine: each person's balance against an equal share
    of the total, and the greedy matching of debtors to creditors that turns
    the balances into transfers. */
module Calculations {
  import opened Types
  import opened Lists
  import opened Sorting

  /** Amounts at or below this are treated as nothing. */
  const Epsilon: real := 0.01

  // ------------------------------------------------------------------------
  // Balances

  /** Sum of the amounts, folded from the left starting at 0. */
  function Total(es: seq<Expense>): real
  {
    if es == [] then 0.0 else Total(es[..|es| - 1]) + es[|es| - 1].amount
  }

  function IsPaidBy(id: string): Expense -> bool
  {
    (e: Expense) => e.paidBy == id
  }

  /** What the person with this id paid, over all expenses. */
  function Paid(es: seq<Expense>, id: string): real
  {
    Total(Filter(es, IsPaidBy(id)))
  }

  /** One entry per person, in the order of `people`: what the person paid
      minus the equal share of the total. */
  function Balances(people: seq<Person>, es: seq<Expense>): (r: seq<Entry>)
    ensures |r| == |people|
    ensures forall i :: 0 <= i < |people| ==> r[i].personId == people[i].id
  {
    var total := Total(es);
    seq(|people|, i requires 0 <= i < |people| =>
      Entry(people[i].id, Paid(es, people[i].id) - total / (|people| as real)))
  }

  function Sum(v: seq<real>): real
  {
    if v == [] then 0.0 else Sum(v[..|v| - 1]) + v[|v| - 1]
  }

  predicate UniqueIds(people: seq<Person>)
  {
    forall i, j :: 0 <= i < j < |people| ==> people[i].id != people[j].id
  }

  /** An expense whose payer is none of the people. */
  function IsOrphan(people: seq<Person>): Expense -> bool
  {
    (e: Expense) => forall p :: p in people ==> p.id != e.paidBy
  }

  /** What the people paid together, person by person. */
  function SumPaid(people: seq<Person>, es: seq<Expense>): real
  {
    if people == [] then 0.0
    else SumPaid(people[..|people| - 1], es) + Paid(es, people[|people| - 1].id)
  }

  /** How much of one expense is credited to the people, person by person. */
  function Credit(people: seq<Person>, e: Expense): real
  {
    if people == [] then 0.0
    else Credit(people[..|people| - 1], e) + (if people[|people| - 1].id == e.paidBy then e.amount else 0.0)
  }

  lemma TotalSnoc(es: seq<Expense>, e: Expense)
    ensures Total(es + [e]) == Total(es) + e.amount
  {
    assert (es + [e])[..|es|] == es;
  }

  /** The left fold of `reduce` adds up any split of the list into two parts
      as the sum of the parts' totals. */
  lemma {:induction false} TotalConcat(a: seq<Expense>, b: seq<Expense>)
    ensures Total(a + b) == Total(a) + Total(b)
    decreases |b|
  {
    if b != [] {
      var n := |b| - 1;
      assert a + b == (a + b[..n]) + [b[n]];
      assert b == b[..n] + [b[n]];
      TotalSnoc(a + b[..n], b[n]);
      TotalSnoc(b[..n], b[n]);
      TotalConcat(a, b[..n]);
    } else {
      assert a + b == a;
    }
  }

  /** Recording one more expense adds its amount to its payer's total and to no one else's. */
  lemma {:induction false} PaidSnoc(es: seq<Expense>, e: Expense, id: string)
    ensures Paid(es + [e], id) == Paid(es, id) + (if e.paidBy == id then e.amount else 0.0)
  {
    FilterConcat(es, [e], IsPaidBy(id));
    assert [e][1..] == [];
    if e.paidBy == id {
      TotalSnoc(Filter(es, IsPaidBy(id)), e);
    } else {
      assert Filter(es, IsPaidBy(id)) + [] == Filter(es, IsPaidBy(id));
    }
  }

  lemma {:induction false} OrphanSnoc(people: seq<Person>, es: seq<Expense>, e: Expense)
    ensures Total(Filter(es + [e], IsOrphan(people)))
         == Total(Filter(es, IsOrphan(people))) + (if IsOrphan(people)(e) then e.amount else 0.0)
  {
    FilterConcat(es, [e], IsOrphan(people));
    assert [e][1..] == [];
    if IsOrphan(people)(e) {
      TotalSnoc(Filter(es, IsOrphan(people)), e);
    } else {
      assert Filter(es, IsOrphan(people)) + [] == Filter(es, IsOrphan(people));
    }
  }

  lemma {:induction false} SumPaidSnoc(people: seq<Person>, es: seq<Expense>, e: Expense)
    ensures SumPaid(people, es + [e]) == SumPaid(people, es) + Credit(people, e)
  {
    if people != [] {
      var n := |people| - 1;
      SumPaidSnoc(people[..n], es, e);
      PaidSnoc(es, e, people[n].id);
    }
  }

  /** With unique ids an expense is credited once, in full, or not at all when its payer is unknown. */
  lemma {:induction false} CreditOnce(people: seq<Person>, e: Expense)
    requires UniqueIds(people)
    ensures Credit(people, e) == if IsOrphan(people)(e) then 0.0 else e.amount
  {
    if people != [] {
      var n := |people| - 1;
      var front := people[..n];
      assert UniqueIds(front);
      CreditOnce(front, e);
      assert forall p :: p in people ==> p in front || p == people[n];
      if people[n].id == e.paidBy {
        assert IsOrphan(front)(e) by {
          forall p | p in front ensures p.id != e.paidBy {
            var j :| 0 <= j < n && front[j] == p;
          }
        }
      }
    }
  }

  /** The people together paid the total minus what nobody among them paid. */
  lemma {:induction false} SumPaidIsCredited(people: seq<Person>, es: seq<Expense>)
    requires UniqueIds(people)
    ensures SumPaid(people, es) == Total(es) - Total(Filter(es, IsOrphan(people)))
  {
    if es == [] {
      SumPaidEmpty(people);
    } else {
      var n := |es| - 1;
      assert es == es[..n] + [es[n]];
      SumPaidIsCredited(people, es[..n]);
      SumPaidSnoc(people, es[..n], es[n]);
      CreditOnce(people, es[n]);
      OrphanSnoc(people, es[..n], es[n]);
      TotalSnoc(es[..n], es[n]);
    }
  }

  lemma {:induction false} SumPaidEmpty(people: seq<Person>)
    ensures SumPaid(people, []) == 0.0
  {
    if people != [] {
      SumPaidEmpty(people[..|people| - 1]);
    }
  }

  /** `x` added up `k` times. */
  function Times(k: nat, x: real): real
  {
    if k == 0 then 0.0 else Times(k - 1, x) + x
  }

  lemma {:induction false} TimesShare(k: nat, x: real)
    requires k > 0
    ensures Times(k, x / (k as real)) == x
  {
    TimesIsProduct(k, x / (k as real));
    ScaleShare(x, k as real);
  }

  lemma {:induction false} TimesIsProduct(k: nat, x: real)
    ensures Times(k, x) == (k as real) * x
  {
    if k > 0 {
      TimesIsProduct(k - 1, x);
      ScaleStep(k, x);
    }
  }

  lemma ScaleStep(k: nat, x: real)
    requires k > 0
    ensures (k as real) * x == ((k - 1) as real) * x + x
  {
  }

  lemma ScaleShare(x: real, n: real)
    requires n != 0.0
    ensures n * (x / n) == x
  {
  }

  /** Balances measured against any common share add up, over a prefix of
      the people, to what those people paid minus that many shares. */
  lemma {:induction false} PrefixSum(people: seq<Person>, es: seq<Expense>, v: seq<real>, share: real, k: nat)
    requires |v| == |people| && k <= |v|
    requires forall i :: 0 <= i < |v| ==> v[i] == Paid(es, people[i].id) - share
    ensures Sum(v[..k]) == SumPaid(people[..k], es) - Times(k, share)
  {
    if k > 0 {
      PrefixSum(people, es, v, share, k - 1);
      assert v[..k][..k - 1] == v[..k - 1];
      assert people[..k][..k - 1] == people[..k - 1];
    }
  }

  /** The balances add up to minus the expenses no person is credited with;
      every balance is measured against the same share of the full total. */
  lemma OrphansSkewBalances(people: seq<Person>, es: seq<Expense>)
    requires 0 < |people| && UniqueIds(people)
    ensures Sum(Values(Balances(people, es))) == -Total(Filter(es, IsOrphan(people)))
  {
    var v := Values(Balances(people, es));
    PrefixSum(people, es, v, Total(es) / (|people| as real), |people|);
    assert v[..|people|] == v;
    assert people[..|people|] == people;
    SumPaidIsCredited(people, es);
    TimesShare(|people|, Total(es));
  }

  /** Zero-sum: when ids are unique and every payer is one of the people,
      the balances add up to exactly 0. */
  lemma BalancesSumToZero(people: seq<Person>, es: seq<Expense>)
    requires 0 < |people| && UniqueIds(people)
    requires forall e :: e in es ==> exists p :: p in people && p.id == e.paidBy
    ensures Sum(Values(Balances(people, es))) == 0.0
  {
    OrphansSkewBalances(people, es);
    assert forall e :: e in es ==> !IsOrphan(people)(e);
    FilterNone(es, IsOrphan(people));
    assert Total([]) == 0.0;
  }

  /** With no expenses every balance is 0. */
  lemma NoExpensesNoBalance(people: seq<Person>)
    ensures forall i :: 0 <= i < |people| ==> Balances(people, [])[i].balance == 0.0
  {
  }

  /** Recording one more expense raises its payer's balance by the amount and
      lowers everyone's by an equal part of it. */
  lemma BalancesAfterExpense(people: seq<Person>, es: seq<Expense>, e: Expense, i: nat)
    requires i < |people|
    ensures Balances(people, es + [e])[i].balance
         == Balances(people, es)[i].balance
            + (if people[i].id == e.paidBy then e.amount else 0.0)
            - e.amount / (|people| as real)
  {
    var n := |people| as real;
    var id := people[i].id;
    PaidSnoc(es, e, id);
    TotalSnoc(es, e);
    DivideSum(Total(es), e.amount, n);
    assert Balances(people, es + [e])[i].balance == Paid(es + [e], id) - Total(es + [e]) / n;
    assert Balances(people, es)[i].balance == Paid(es, id) - Total(es) / n;
  }

  lemma DivideSum(a: real, b: real, n: real)
    requires n != 0.0
    ensures (a + b) / n == a / n + b / n
  {
  }

  // ------------------------------------------------------------------------
  // Settlements

  /** Math.min */
  function Min(a: real, b: real): real
  {
    if a <= b then a else b
  }

  /** Math.abs */
  function Abs(a: real): real
  {
    if a < 0.0 then -a else a
  }

  /** The name of the first person with this id, or "" when there is none. */
  function NameOf(people: seq<Person>, id: string): (name: string)
    ensures (forall p :: p in people ==> p.id != id) ==> name == ""
  {
    if people == [] then ""
    else if people[0].id == id then people[0].name
    else NameOf(people[1..], id)
  }

  /** The name found is the one of the first person with that id. */
  lemma {:induction false} NameOfFirst(people: seq<Person>, id: string, k: nat)
    requires k < |people| && people[k].id == id
    requires forall j :: 0 <= j < k ==> people[j].id != id
    ensures NameOf(people, id) == people[k].name
  {
    if k > 0 {
      NameOfFirst(people[1..], id, k - 1);
    }
  }

  function Negated(v: seq<real>): (r: seq<real>)
    ensures |r| == |v| && forall i :: 0 <= i < |v| ==> r[i] == -v[i]
  {
    seq(|v|, i requires 0 <= i < |v| => -v[i])
  }

  /** `b => b.balance > 0`: somebody is owed money. */
  predicate Owed(x: real)
  {
    x > 0.0
  }

  /** `b => b.balance < 0`: somebody owes money. */
  predicate Owes(x: real)
  {
    x < 0.0
  }

  /** The positions whose value `keep` accepts, in increasing order. */
  function Positions(v: seq<real>, keep: real -> bool): (r: seq<nat>)
    ensures InRange(v, r) && NoDuplicates(r)
    ensures forall i :: 0 <= i < |v| ==> (i in r <==> keep(v[i]))
  {
    if v == [] then []
    else
      var n := |v| - 1;
      var front := Positions(v[..n], keep);
      assert forall i :: 0 <= i < n ==> v[..n][i] == v[i];
      front + (if keep(v[n]) then [n] else [])
  }

  /** The positions with a positive balance, largest balance first; ties keep their order. */
  function Creditors(v: seq<real>): (r: seq<nat>)
    ensures InRange(v, r) && NoDuplicates(r)
    ensures forall i :: 0 <= i < |v| ==> (i in r <==> v[i] > 0.0)
  {
    var s := Positions(v, Owed);
    var r := SortByKey(Negated(v), s);
    SortByKeyOrdered(Negated(v), s);
    OrderedNoDuplicates(Negated(v), r);
    assert forall x :: x in r <==> x in s by {
      forall x ensures x in r <==> x in s {
        assert x in r <==> x in multiset(r);
        assert x in s <==> x in multiset(s);
      }
    }
    r
  }

  /** The positions with a negative balance, most negative first; ties keep their order. */
  function Debtors(v: seq<real>): (r: seq<nat>)
    ensures InRange(v, r) && NoDuplicates(r)
    ensures forall i :: 0 <= i < |v| ==> (i in r <==> v[i] < 0.0)
  {
    var s := Positions(v, Owes);
    var r := SortByKey(v, s);
    SortByKeyOrdered(v, s);
    OrderedNoDuplicates(v, r);
    assert forall x :: x in r <==> x in s by {
      forall x ensures x in r <==> x in s {
        assert x in r <==> x in multiset(r);
        assert x in s <==> x in multiset(s);
      }
    }
    r
  }

  /** Creditors come largest balance first, equal balances in their original order. */
  lemma CreditorsOrder(v: seq<real>)
    ensures var r := Creditors(v);
      forall p, q :: 0 <= p < q < |r| ==> v[r[p]] > v[r[q]] || (v[r[p]] == v[r[q]] && r[p] < r[q])
  {
    var r := Creditors(v);
    assert r == SortByKey(Negated(v), Positions(v, Owed));
    SortByKeyOrdered(Negated(v), Positions(v, Owed));
  }

  /** Debtors come most negative balance first, equal balances in their original order. */
  lemma DebtorsOrder(v: seq<real>)
    ensures var r := Debtors(v);
      forall p, q :: 0 <= p < q < |r| ==> v[r[p]] < v[r[q]] || (v[r[p]] == v[r[q]] && r[p] < r[q])
  {
    var r := Debtors(v);
    assert r == SortByKey(v, Positions(v, Owes));
    SortByKeyOrdered(v, Positions(v, Owes));
  }

  /** One round of matching: the amount settled and both balances after it. */
  datatype Transfer = Transfer(amount: real, creditor: real, debtor: real)

  /** The creditor's balance `c` and the debtor's `d` meet: the smaller side
      is paid off in full, so at least one of them ends at exactly 0, and
      neither changes sign. */
  function Step(c: real, d: real): (t: Transfer)
    requires 0.0 <= c && d <= 0.0
    ensures 0.0 <= t.amount && t.amount <= c && t.amount <= -d
    ensures t.amount == c || t.amount == -d
    ensures t.creditor == c - t.amount && t.debtor == d + t.amount
    ensures 0.0 <= t.creditor && t.debtor <= 0.0
    ensures t.creditor == 0.0 || t.debtor == 0.0
  {
    var amount := Min(c, Abs(d));
    Transfer(amount, c - amount, d + amount)
  }

  /** The matcher's working state: every balance's current value and the two cursors. */
  datatype Cursors = Cursors(w: seq<real>, ci: nat, di: nat)

  /** The matcher's invariant: the cursors lie within the creditor list `cs`
      and the debtor list `ds`, the two lists name distinct positions, every
      creditor is still at or above 0 and every debtor at or below 0. */
  ghost predicate Valid(ids: seq<string>, cs: seq<nat>, ds: seq<nat>, m: Cursors)
  {
    && |ids| == |m.w| && m.ci <= |cs| && m.di <= |ds|
    && InRange(m.w, cs) && InRange(m.w, ds) && NoDuplicates(cs) && NoDuplicates(ds)
    && (forall p, q :: 0 <= p < |cs| && 0 <= q < |ds| ==> cs[p] != ds[q])
    && (forall k :: 0 <= k < |cs| ==> m.w[cs[k]] >= 0.0)
    && (forall k :: 0 <= k < |ds| ==> m.w[ds[k]] <= 0.0)
  }

  predicate Running(cs: seq<nat>, ds: seq<nat>, m: Cursors)
  {
    m.ci < |cs| && m.di < |ds|
  }

  /** One iteration of the loop: settle, then move past whichever side fell below Epsilon. */
  function Advance(ids: seq<string>, cs: seq<nat>, ds: seq<nat>, m: Cursors): (n: Cursors)
    requires Valid(ids, cs, ds, m) && Running(cs, ds, m)
    ensures Valid(ids, cs, ds, n)
    ensures n.ci + n.di > m.ci + m.di
    ensures n.ci <= m.ci + 1 && n.di <= m.di + 1
  {
    var c, d := cs[m.ci], ds[m.di];
    var t := Step(m.w[c], m.w[d]);
    var w := m.w[c := t.creditor][d := t.debtor];
    assert w[c] == t.creditor && w[d] == t.debtor;
    assert forall k :: 0 <= k < |cs| && cs[k] != c ==> w[cs[k]] == m.w[cs[k]];
    assert forall k :: 0 <= k < |ds| && ds[k] != d ==> w[ds[k]] == m.w[ds[k]];
    Cursors(w, if w[c] < Epsilon then m.ci + 1 else m.ci, if Abs(w[d]) < Epsilon then m.di + 1 else m.di)
  }

  /** Advance, spelled out: the values after one step and which cursors move. */
  lemma AdvanceIs(ids: seq<string>, cs: seq<nat>, ds: seq<nat>, m: Cursors)
    requires Valid(ids, cs, ds, m) && Running(cs, ds, m)
    ensures var c, d := cs[m.ci], ds[m.di];
      var t := Step(m.w[c], m.w[d]);
      var n := Advance(ids, cs, ds, m);
      && n.w == m.w[c := t.creditor][d := t.debtor]
      && n.ci == (if t.creditor < Epsilon then m.ci + 1 else m.ci)
      && n.di == (if Abs(t.debtor) < Epsilon then m.di + 1 else m.di)
  {
    var c, d := cs[m.ci], ds[m.di];
    var t := Step(m.w[c], m.w[d]);
    assert m.w[c := t.creditor][d := t.debtor][c] == t.creditor;
  }

  /** The settlement one iteration emits: at most one, from the debtor's
      name to the creditor's name, for the amount of the step, and none
      unless that amount exceeds Epsilon. */
  function Emitted(people: seq<Person>, ids: seq<string>, cs: seq<nat>, ds: seq<nat>, m: Cursors): (r: seq<Settlement>)
    requires Valid(ids, cs, ds, m) && Running(cs, ds, m)
    ensures var c, d := cs[m.ci], ds[m.di];
      var t := Step(m.w[c], m.w[d]);
      && |r| <= 1
      && (r != [] <==> t.amount > Epsilon)
      && forall s :: s in r ==> s == Settlement(NameOf(people, ids[d]), NameOf(people, ids[c]), t.amount)
  {
    var c, d := cs[m.ci], ds[m.di];
    var t := Step(m.w[c], m.w[d]);
    if t.amount > Epsilon then [Settlement(NameOf(people, ids[d]), NameOf(people, ids[c]), t.amount)] else []
  }

  /** The loop's result: what it emits from state `m` on, and the balances it leaves. */
  datatype Run = Run(settlements: seq<Settlement>, balances: seq<real>)

  function Greedy(people: seq<Person>, ids: seq<string>, cs: seq<nat>, ds: seq<nat>, m: Cursors): (r: Run)
    requires Valid(ids, cs, ds, m)
    ensures |r.balances| == |m.w|
    decreases |cs| - m.ci + |ds| - m.di
  {
    if Running(cs, ds, m) then
      var rest := Greedy(people, ids, cs, ds, Advance(ids, cs, ds, m));
      Run(Emitted(people, ids, cs, ds, m) + rest.settlements, rest.balances)
    else
      Run([], m.w)
  }

  /** Every settlement the loop emits is above Epsilon. */
  lemma {:induction false} GreedyAmounts(people: seq<Person>, ids: seq<string>, cs: seq<nat>, ds: seq<nat>, m: Cursors)
    requires Valid(ids, cs, ds, m)
    ensures forall s :: s in Greedy(people, ids, cs, ds, m).settlements ==> s.amount > Epsilon
    decreases |cs| - m.ci + |ds| - m.di
  {
    if Running(cs, ds, m) {
      GreedyAmounts(people, ids, cs, ds, Advance(ids, cs, ds, m));
    }
  }

  /** Each settlement is paid by a debtor's person to a creditor's person. */
  lemma {:induction false} GreedyNames(people: seq<Person>, ids: seq<string>, cs: seq<nat>, ds: seq<nat>, m: Cursors)
    requires Valid(ids, cs, ds, m)
    ensures forall s :: s in Greedy(people, ids, cs, ds, m).settlements ==>
              exists p, q :: 0 <= p < |cs| && 0 <= q < |ds|
                && s.to == NameOf(people, ids[cs[p]]) && s.from == NameOf(people, ids[ds[q]])
    decreases |cs| - m.ci + |ds| - m.di
  {
    if Running(cs, ds, m) {
      GreedyNames(people, ids, cs, ds, Advance(ids, cs, ds, m));
      var p, q := m.ci, m.di;
      assert forall s :: s in Emitted(people, ids, cs, ds, m) ==>
        s.to == NameOf(people, ids[cs[p]]) && s.from == NameOf(people, ids[ds[q]]);
    }
  }

  /** While both lists have entries left, the loop emits at most one settlement
      fewer than the entries left; once one list is used up it emits none. */
  lemma {:induction false} GreedyCount(people: seq<Person>, ids: seq<string>, cs: seq<nat>, ds: seq<nat>, m: Cursors)
    requires Valid(ids, cs, ds, m)
    ensures var r := Greedy(people, ids, cs, ds, m);
      if Running(cs, ds, m) then |r.settlements| <= (|cs| - m.ci) + (|ds| - m.di) - 1
      else r.settlements == []
    decreases |cs| - m.ci + |ds| - m.di
  {
    if Running(cs, ds, m) {
      GreedyCount(people, ids, cs, ds, Advance(ids, cs, ds, m));
    }
  }

  /** What the loop does to the working balances: creditors only go down and
      stay at or above 0, debtors only go up and stay at or below 0, entries
      behind the cursors and positions on neither list are left as they are. */
  lemma {:induction false} GreedyBalances(people: seq<Person>, ids: seq<string>, cs: seq<nat>, ds: seq<nat>, m: Cursors)
    requires Valid(ids, cs, ds, m)
    ensures var r := Greedy(people, ids, cs, ds, m);
      && (forall k :: 0 <= k < |cs| ==> 0.0 <= r.balances[cs[k]] <= m.w[cs[k]])
      && (forall k :: 0 <= k < |ds| ==> m.w[ds[k]] <= r.balances[ds[k]] <= 0.0)
      && (forall k :: 0 <= k < m.ci ==> r.balances[cs[k]] == m.w[cs[k]])
      && (forall k :: 0 <= k < m.di ==> r.balances[ds[k]] == m.w[ds[k]])
      && (forall i :: 0 <= i < |m.w| && i !in cs && i !in ds ==> r.balances[i] == m.w[i])
    decreases |cs| - m.ci + |ds| - m.di
  {
    if Running(cs, ds, m) {
      var n := Advance(ids, cs, ds, m);
      GreedyBalances(people, ids, cs, ds, n);
      var c, d := cs[m.ci], ds[m.di];
      assert forall k :: 0 <= k < |cs| && k != m.ci ==> cs[k] != c && cs[k] != d;
      assert forall k :: 0 <= k < |ds| && k != m.di ==> ds[k] != d && ds[k] != c;
    }
  }

  lemma {:induction false} SumUpdate(v: seq<real>, i: nat, x: real)
    requires i < |v|
    ensures Sum(v[i := x]) == Sum(v) - v[i] + x
  {
    var n := |v| - 1;
    if i == n {
      assert v[i := x][..n] == v[..n];
    } else {
      assert v[i := x][..n] == v[..n][i := x];
      SumUpdate(v[..n], i, x);
    }
  }

  /** Matching only moves money between balances: their sum never changes. */
  lemma {:induction false} GreedyConserves(people: seq<Person>, ids: seq<string>, cs: seq<nat>, ds: seq<nat>, m: Cursors)
    requires Valid(ids, cs, ds, m)
    ensures Sum(Greedy(people, ids, cs, ds, m).balances) == Sum(m.w)
    decreases |cs| - m.ci + |ds| - m.di
  {
    if Running(cs, ds, m) {
      var n := Advance(ids, cs, ds, m);
      GreedyConserves(people, ids, cs, ds, n);
      var c, d := cs[m.ci], ds[m.di];
      var t := Step(m.w[c], m.w[d]);
      SumUpdate(m.w, c, t.creditor);
      SumUpdate(m.w[c := t.creditor], d, t.debtor);
    }
  }

  /** When no creditor ahead of the cursor holds more than Epsilon, nothing
      is emitted. */
  lemma {:induction false} GreedySmall(people: seq<Person>, ids: seq<string>, cs: seq<nat>, ds: seq<nat>, m: Cursors)
    requires Valid(ids, cs, ds, m)
    requires forall k :: m.ci <= k < |cs| ==> m.w[cs[k]] <= Epsilon
    ensures Greedy(people, ids, cs, ds, m).settlements == []
    decreases |cs| - m.ci + |ds| - m.di
  {
    if Running(cs, ds, m) {
      var n := Advance(ids, cs, ds, m);
      var c := cs[m.ci];
      assert forall k :: 0 <= k < |cs| && k != m.ci ==> cs[k] != c;
      GreedySmall(people, ids, cs, ds, n);
    }
  }

  /** The loop stops with one side finished: every creditor is below Epsilon,
      or every debtor owes less than Epsilon. */
  lemma {:induction false} GreedyCompletes(people: seq<Person>, ids: seq<string>, cs: seq<nat>, ds: seq<nat>, m: Cursors)
    requires Valid(ids, cs, ds, m)
    requires forall k :: 0 <= k < m.ci ==> m.w[cs[k]] < Epsilon
    requires forall k :: 0 <= k < m.di ==> Abs(m.w[ds[k]]) < Epsilon
    ensures var r := Greedy(people, ids, cs, ds, m);
      (forall k :: 0 <= k < |cs| ==> r.balances[cs[k]] < Epsilon)
      || (forall k :: 0 <= k < |ds| ==> Abs(r.balances[ds[k]]) < Epsilon)
    decreases |cs| - m.ci + |ds| - m.di
  {
    if Running(cs, ds, m) {
      var n := Advance(ids, cs, ds, m);
      var c, d := cs[m.ci], ds[m.di];
      assert forall k :: 0 <= k < |cs| && k != m.ci ==> cs[k] != c && cs[k] != d;
      assert forall k :: 0 <= k < |ds| && k != m.di ==> ds[k] != d && ds[k] != c;
      GreedyCompletes(people, ids, cs, ds, n);
    }
  }

  /** What calculateSettlements returns, and the values it leaves in the balance objects. */
  datatype Outcome = Outcome(settlements: seq<Settlement>, balances: seq<Entry>)

  /** The matcher started on the creditors and debtors of `es`, both cursors at 0. */
  function Start(es: seq<Entry>): (m: Cursors)
    ensures Valid(Ids(es), Creditors(Values(es)), Debtors(Values(es)), m)
  {
    var v := Values(es);
    var cs, ds := Creditors(v), Debtors(v);
    assert forall p, q :: 0 <= p < |cs| && 0 <= q < |ds| ==> cs[p] != ds[q] by {
      forall p, q | 0 <= p < |cs| && 0 <= q < |ds| ensures cs[p] != ds[q] {
        assert cs[p] in cs && ds[q] in ds;
      }
    }
    assert forall k :: 0 <= k < |cs| ==> v[cs[k]] >= 0.0 by {
      forall k | 0 <= k < |cs| ensures v[cs[k]] >= 0.0 {
        assert cs[k] in cs;
      }
    }
    assert forall k :: 0 <= k < |ds| ==> v[ds[k]] <= 0.0 by {
      forall k | 0 <= k < |ds| ensures v[ds[k]] <= 0.0 {
        assert ds[k] in ds;
      }
    }
    Cursors(v, 0, 0)
  }

  /** calculateSettlements on the values that the balances hold. */
  function Settle(people: seq<Person>, es: seq<Entry>): (o: Outcome)
    ensures |o.balances| == |es|
    ensures forall i :: 0 <= i < |es| ==> o.balances[i].personId == es[i].personId
  {
    var v := Values(es);
    var r := Greedy(people, Ids(es), Creditors(v), Debtors(v), Start(es));
    Outcome(r.settlements, WithValues(es, r.balances))
  }

  /** The entries `es` with their balances replaced by `w`. */
  function WithValues(es: seq<Entry>, w: seq<real>): (r: seq<Entry>)
    requires |w| == |es|
    ensures |r| == |es| && forall i :: 0 <= i < |es| ==> r[i] == Entry(es[i].personId, w[i])
    ensures Ids(r) == Ids(es) && Values(r) == w
  {
    seq(|es|, i requires 0 <= i < |es| => Entry(es[i].personId, w[i]))
  }

  /** Every settlement is for more than Epsilon. */
  lemma SettleAmounts(people: seq<Person>, es: seq<Entry>)
    ensures forall s :: s in Settle(people, es).settlements ==> s.amount > Epsilon
  {
    var v := Values(es);
    GreedyAmounts(people, Ids(es), Creditors(v), Debtors(v), Start(es));
  }

  /** Settlement `s` is paid by the person of entry `d`, who owes, to the
      person of entry `c`, who is owed. */
  ghost predicate PaidBetween(people: seq<Person>, es: seq<Entry>, s: Settlement, c: int, d: int)
  {
    && 0 <= c < |es| && 0 <= d < |es| && es[c].balance > 0.0 && es[d].balance < 0.0
    && s.to == NameOf(people, es[c].personId) && s.from == NameOf(people, es[d].personId)
  }

  /** Every settlement is paid to the name of a person with a positive balance,
      by the name of a person with a negative one. */
  lemma SettleNames(people: seq<Person>, es: seq<Entry>)
    ensures forall s :: s in Settle(people, es).settlements ==> exists c, d :: PaidBetween(people, es, s, c, d)
  {
    var v, ids := Values(es), Ids(es);
    var cs, ds := Creditors(v), Debtors(v);
    var r := Greedy(people, ids, cs, ds, Start(es));
    assert Settle(people, es).settlements == r.settlements;
    GreedyNames(people, ids, cs, ds, Start(es));
    forall s | s in r.settlements
      ensures exists c, d :: PaidBetween(people, es, s, c, d)
    {
      var p, q :| 0 <= p < |cs| && 0 <= q < |ds|
        && s.to == NameOf(people, ids[cs[p]]) && s.from == NameOf(people, ids[ds[q]]);
      ListedPair(people, es, s, p, q);
    }
  }

  /** A settlement named after the `p`-th creditor and the `q`-th debtor is
      paid between those two entries. */
  lemma ListedPair(people: seq<Person>, es: seq<Entry>, s: Settlement, p: nat, q: nat)
    requires p < |Creditors(Values(es))| && q < |Debtors(Values(es))|
    requires s.to == NameOf(people, Ids(es)[Creditors(Values(es))[p]])
    requires s.from == NameOf(people, Ids(es)[Debtors(Values(es))[q]])
    ensures PaidBetween(people, es, s, Creditors(Values(es))[p], Debtors(Values(es))[q])
  {
    var cs, ds := Creditors(Values(es)), Debtors(Values(es));
    assert cs[p] in cs && ds[q] in ds;
  }

  /** At most one settlement fewer than there are creditors and debtors
      together, and none at all when either side is empty. */
  lemma SettleCount(people: seq<Person>, es: seq<Entry>)
    ensures var o := Settle(people, es);
      var nc, nd := |Creditors(Values(es))|, |Debtors(Values(es))|;
      if nc == 0 || nd == 0 then o.settlements == [] else |o.settlements| <= nc + nd - 1
  {
    var v := Values(es);
    GreedyCount(people, Ids(es), Creditors(v), Debtors(v), Start(es));
  }

  lemma StartBalances(people: seq<Person>, es: seq<Entry>)
    ensures var v := Values(es);
      var r := Greedy(people, Ids(es), Creditors(v), Debtors(v), Start(es));
      forall i :: 0 <= i < |es| ==>
        && (v[i] > 0.0 ==> 0.0 <= r.balances[i] <= v[i])
        && (v[i] < 0.0 ==> v[i] <= r.balances[i] <= 0.0)
        && (v[i] == 0.0 ==> r.balances[i] == v[i])
  {
    var v := Values(es);
    var cs, ds := Creditors(v), Debtors(v);
    GreedyBalances(people, Ids(es), cs, ds, Start(es));
    var r := Greedy(people, Ids(es), cs, ds, Start(es));
    forall i | 0 <= i < |es| && v[i] > 0.0 ensures 0.0 <= r.balances[i] <= v[i] {
      var k :| 0 <= k < |cs| && cs[k] == i;
    }
    forall i | 0 <= i < |es| && v[i] < 0.0 ensures v[i] <= r.balances[i] <= 0.0 {
      var k :| 0 <= k < |ds| && ds[k] == i;
    }
  }

  /** Signs are kept: a positive balance ends between 0 and where it started,
      a negative one between where it started and 0, and a zero balance is
      not touched. The person ids do not change. */
  lemma SettleBalances(people: seq<Person>, es: seq<Entry>)
    ensures var o := Settle(people, es);
      forall i :: 0 <= i < |es| ==>
        && o.balances[i].personId == es[i].personId
        && (es[i].balance > 0.0 ==> 0.0 <= o.balances[i].balance <= es[i].balance)
        && (es[i].balance < 0.0 ==> es[i].balance <= o.balances[i].balance <= 0.0)
        && (es[i].balance == 0.0 ==> o.balances[i] == es[i])
  {
    StartBalances(people, es);
  }

  /** The matching moves money between balances; it never creates or destroys any. */
  lemma SettleConserves(people: seq<Person>, es: seq<Entry>)
    ensures Sum(Values(Settle(people, es).balances)) == Sum(Values(es))
  {
    var v := Values(es);
    GreedyConserves(people, Ids(es), Creditors(v), Debtors(v), Start(es));
  }

  /** Balances that are all within Epsilon of 0 produce no settlement. */
  lemma AlreadySettled(people: seq<Person>, es: seq<Entry>)
    requires forall i :: 0 <= i < |es| ==> Abs(es[i].balance) <= Epsilon
    ensures Settle(people, es).settlements == []
  {
    var v := Values(es);
    GreedySmall(people, Ids(es), Creditors(v), Debtors(v), Start(es));
  }

  /** Amounts skipped as too small are still taken off the working balances,
      so a credit above Epsilon can go unpaid: one person owed 0.016 and two
      owing 0.008 each get no settlement at all. */
  lemma SmallAmountsVanish()
    ensures var es := [Entry("a", 0.016), Entry("b", -0.008), Entry("c", -0.008)];
      && Sum(Values(es)) == 0.0 && es[0].balance > Epsilon
      && Settle([Person("a", "Anna"), Person("b", "Ben"), Person("c", "Cem")], es).settlements == []
  {
    var people := [Person("a", "Anna"), Person("b", "Ben"), Person("c", "Cem")];
    var es := [Entry("a", 0.016), Entry("b", -0.008), Entry("c", -0.008)];
    var v := Values(es);
    assert v == [0.016, -0.008, -0.008];
    SmallSides(v);
    var cs, ds := Creditors(v), Debtors(v);
    var m := Start(es);
    assert m == Cursors(v, 0, 0);
    var n := Advance(Ids(es), cs, ds, m);
    assert n.ci == 1;
    assert Emitted(people, Ids(es), cs, ds, m) == [];
    assert Greedy(people, Ids(es), cs, ds, n).settlements == [];
  }

  /** The values of `SmallAmountsVanish`: they add up to 0, one creditor and two debtors in order. */
  lemma SmallSides(v: seq<real>)
    requires v == [0.016, -0.008, -0.008]
    ensures Sum(v) == 0.0 && Creditors(v) == [0] && Debtors(v) == [1, 2]
  {
    assert v[..2] == [0.016, -0.008] && v[..2][..1] == [0.016] && v[..2][..1][..0] == [];
    assert Sum(v[..2][..1]) == 0.016;
    assert Sum(v[..2]) == 0.008;
    assert Owed(v[0]) && !Owed(v[1]) && !Owed(v[2]);
    assert Positions(v[..2][..1], Owed) == [0];
    assert Positions(v[..2], Owed) == Positions(v[..2][..1], Owed);
    assert Positions(v, Owed) == Positions(v[..2], Owed);
    SmallDebtors(v);
    assert SortByKey(v, [1]) == [1];
    assert Insert(v, [1], 2) == [1, 2];
  }

  lemma SmallDebtors(v: seq<real>)
    requires v == [0.016, -0.008, -0.008]
    ensures Positions(v, Owes) == [1, 2]
  {
    assert v[..2] == [0.016, -0.008] && v[..2][..1] == [0.016] && v[..2][..1][..0] == [];
    assert !Owes(v[0]) && Owes(v[1]) && Owes(v[2]);
    assert Positions(v[..2][..1], Owes) == [];
    assert Positions(v[..2], Owes) == Positions(v[..2][..1], Owes) + [1];
    assert Positions(v, Owes) == Positions(v[..2], Owes) + [2];
  }

  /** When the matching stops, one side is done: every creditor holds less
      than Epsilon, or every debtor owes less than Epsilon. */
  lemma SettleCompletes(people: seq<Person>, es: seq<Entry>)
    ensures var o := Settle(people, es);
      (forall i :: 0 <= i < |es| && es[i].balance > 0.0 ==> o.balances[i].balance < Epsilon)
      || (forall i :: 0 <= i < |es| && es[i].balance < 0.0 ==> Abs(o.balances[i].balance) < Epsilon)
  {
    var v := Values(es);
    var cs, ds := Creditors(v), Debtors(v);
    GreedyCompletes(people, Ids(es), cs, ds, Start(es));
    var r := Greedy(people, Ids(es), cs, ds, Start(es));
    var o := Settle(people, es);
    assert forall i :: 0 <= i < |es| ==> o.balances[i].balance == r.balances[i];
    if forall k :: 0 <= k < |cs| ==> r.balances[cs[k]] < Epsilon {
      forall i | 0 <= i < |es| && es[i].balance > 0.0 ensures r.balances[i] < Epsilon {
        var k :| 0 <= k < |cs| && cs[k] == i;
      }
    } else {
      forall i | 0 <= i < |es| && es[i].balance < 0.0 ensures Abs(r.balances[i]) < Epsilon {
        var k :| 0 <= k < |ds| && ds[k] == i;
      }
    }
  }

  // ------------------------------------------------------------------------
  // The operations on Balance objects

  /** calculateBalances: fresh Balance objects, one per person, holding `Balances`. */
  method CalculateBalances(people: seq<Person>, expenses: seq<Expense>) returns (balances: seq<Balance>)
    ensures Snapshot(balances) == Balances(people, expenses)
    ensures Distinct(balances) && forall b :: b in balances ==> fresh(b)
  {
    var totalExpenses := Total(expenses);
    balances := [];
    for i := 0 to |people|
      invariant |balances| == i
      invariant Distinct(balances) && forall b :: b in balances ==> fresh(b)
      invariant forall k :: 0 <= k < i ==> balances[k].personId == people[k].id
      invariant forall k :: 0 <= k < i ==> balances[k].balance == Balances(people, expenses)[k].balance
    {
      var paid := Paid(expenses, people[i].id);
      var b := new Balance(people[i].id, paid - totalExpenses / (|people| as real));
      balances := balances + [b];
    }
  }

  ghost predicate Tracks(people: seq<Person>, ids: seq<string>, cs: seq<nat>, ds: seq<nat>, m: Cursors, done: seq<Settlement>, whole: Run)
  {
    Valid(ids, cs, ds, m) &&
    var rest := Greedy(people, ids, cs, ds, m);
    done + rest.settlements == whole.settlements && rest.balances == whole.balances
  }

  /** One iteration keeps `Tracks`: what it emits is the head of what is left. */
  lemma TracksStep(people: seq<Person>, ids: seq<string>, cs: seq<nat>, ds: seq<nat>, m: Cursors, done: seq<Settlement>, whole: Run)
    requires Tracks(people, ids, cs, ds, m, done, whole) && Running(cs, ds, m)
    ensures Tracks(people, ids, cs, ds, Advance(ids, cs, ds, m), done + Emitted(people, ids, cs, ds, m), whole)
  {
    var n := Advance(ids, cs, ds, m);
    var e := Emitted(people, ids, cs, ds, m);
    var rest := Greedy(people, ids, cs, ds, n);
    assert Greedy(people, ids, cs, ds, m) == Run(e + rest.settlements, rest.balances);
    assert (done + e) + rest.settlements == done + (e + rest.settlements);
  }

  /** The loop starts tracking the whole run, with nothing emitted yet. */
  lemma TracksStart(people: seq<Person>, es: seq<Entry>)
    ensures var v := Values(es);
      Tracks(people, Ids(es), Creditors(v), Debtors(v), Cursors(v, 0, 0), [],
             Greedy(people, Ids(es), Creditors(v), Debtors(v), Start(es)))
  {
    var v := Values(es);
    assert Start(es) == Cursors(v, 0, 0);
    assert [] + Greedy(people, Ids(es), Creditors(v), Debtors(v), Start(es)).settlements
      == Greedy(people, Ids(es), Creditors(v), Debtors(v), Start(es)).settlements;
  }

  /** When the loop stops, what it emitted and the values it left are `Settle`'s. */
  lemma TracksDone(people: seq<Person>, es: seq<Entry>, m: Cursors, done: seq<Settlement>)
    requires var v := Values(es);
      && Tracks(people, Ids(es), Creditors(v), Debtors(v), m, done,
                Greedy(people, Ids(es), Creditors(v), Debtors(v), Start(es)))
      && !Running(Creditors(v), Debtors(v), m)
    ensures done == Settle(people, es).settlements
    ensures Ids(Settle(people, es).balances) == Ids(es) && Values(Settle(people, es).balances) == m.w
  {
  }

  /** Entries with the same ids and the same values are the same. */
  lemma SameEntries(a: seq<Entry>, b: seq<Entry>)
    requires Ids(a) == Ids(b) && Values(a) == Values(b)
    ensures a == b
  {
    assert |a| == |Ids(a)| == |Ids(b)| == |b|;
    forall i | 0 <= i < |a|
      ensures a[i] == b[i]
    {
      assert Ids(a)[i] == Ids(b)[i] && Values(a)[i] == Values(b)[i];
    }
  }

  /** One iteration of calculateSettlements' loop: move the smaller of the
      credit and the debt from the creditor to the debtor, and emit a
      settlement when it exceeds Epsilon. The objects mirror the matcher's
      state `m` before and its `Advance` after, and the balances left in the
      two objects decide which cursors move. */
  method SettlePair(people: seq<Person>, balances: seq<Balance>, ghost ids: seq<string>,
                    ghost cs: seq<nat>, ghost ds: seq<nat>, ghost m: Cursors,
                    creditor: Balance, debtor: Balance) returns (emitted: seq<Settlement>)
    requires Valid(ids, cs, ds, m) && Running(cs, ds, m) && Distinct(balances)
    requires Ids(Snapshot(balances)) == ids && Values(Snapshot(balances)) == m.w
    requires creditor == balances[cs[m.ci]] && debtor == balances[ds[m.di]]
    modifies creditor, debtor
    ensures var n := Advance(ids, cs, ds, m);
      && emitted == Emitted(people, ids, cs, ds, m)
      && Ids(Snapshot(balances)) == ids && Values(Snapshot(balances)) == n.w
      && n.ci == (if creditor.balance < Epsilon then m.ci + 1 else m.ci)
      && n.di == (if Abs(debtor.balance) < Epsilon then m.di + 1 else m.di)
  {
    ghost var c, d := cs[m.ci], ds[m.di];
    ghost var t := Step(m.w[c], m.w[d]);
    ghost var before := Snapshot(balances);
    assert c != d;
    assert creditor.balance == m.w[c] && debtor.balance == m.w[d];
    assert creditor.personId == ids[c] && debtor.personId == ids[d];
    var settleAmount := Min(creditor.balance, Abs(debtor.balance));
    emitted := [];
    if settleAmount > Epsilon {
      var creditorName := NameOf(people, creditor.personId);
      var debtorName := NameOf(people, debtor.personId);
      emitted := [Settlement(debtorName, creditorName, settleAmount)];
    }
    creditor.balance := creditor.balance - settleAmount;
    debtor.balance := debtor.balance + settleAmount;
    forall i | 0 <= i < |balances| && i != c && i != d
      ensures balances[i].balance == before[i].balance && balances[i].personId == before[i].personId
    {
      assert balances[i] != creditor && balances[i] != debtor;
    }
    AdvanceIs(ids, cs, ds, m);
    assert Values(Snapshot(balances)) == m.w[c := t.creditor][d := t.debtor];
    assert Ids(Snapshot(balances)) == ids;
  }

  /** calculateSettlements as written: it matches the creditors and the
      debtors of `balances` and writes the remaining amounts into the very
      objects it was given. */
  method CalculateSettlements(people: seq<Person>, balances: seq<Balance>) returns (settlements: seq<Settlement>)
    requires Distinct(balances)
    modifies Objects(balances)
    ensures var o := Settle(people, old(Snapshot(balances)));
      settlements == o.settlements && Snapshot(balances) == o.balances
  {
    ghost var es := Snapshot(balances);
    ghost var ids := Ids(es);
    var v := Values(Snapshot(balances));
    var cs, ds := Creditors(v), Debtors(v);
    var creditors := seq(|cs|, k requires 0 <= k < |cs| => balances[cs[k]]);
    var debtors := seq(|ds|, k requires 0 <= k < |ds| => balances[ds[k]]);
    TracksStart(people, es);
    ghost var whole := Greedy(people, ids, cs, ds, Start(es));
    ghost var m := Cursors(v, 0, 0);
    settlements := [];
    var creditorIndex, debtorIndex := 0, 0;
    while creditorIndex < |creditors| && debtorIndex < |debtors|
      invariant Tracks(people, ids, cs, ds, m, settlements, whole)
      invariant m.ci == creditorIndex && m.di == debtorIndex
      invariant Ids(Snapshot(balances)) == ids && Values(Snapshot(balances)) == m.w
      decreases |cs| - creditorIndex + |ds| - debtorIndex
    {
      var creditor := creditors[creditorIndex];
      var debtor := debtors[debtorIndex];
      var emitted := SettlePair(people, balances, ids, cs, ds, m, creditor, debtor);
      TracksStep(people, ids, cs, ds, m, settlements, whole);
      settlements := settlements + emitted;
      m := Advance(ids, cs, ds, m);
      if creditor.balance < Epsilon {
        creditorIndex := creditorIndex + 1;
      }
      if Abs(debtor.balance) < Epsilon {
        debtorIndex := debtorIndex + 1;
      }
    }
    TracksDone(people, es, m, settlements);
    SameEntries(Snapshot(balances), Settle(people, es).balances);
  }

  /** Fresh objects holding the same entries as `balances`. */
  method Copy(balances: seq<Balance>) returns (copies: seq<Balance>)
    ensures Distinct(copies) && forall b :: b in copies ==> fresh(b)
    ensures Snapshot(copies) == Snapshot(balances)
  {
    copies := [];
    for i := 0 to |balances|
      invariant |copies| == i
      invariant Distinct(copies) && forall b :: b in copies ==> fresh(b)
      invariant forall k :: 0 <= k < i ==> copies[k].personId == balances[k].personId && copies[k].balance == balances[k].balance
    {
      var b := new Balance(balances[i].personId, balances[i].balance);
      copies := copies + [b];
    }
  }

  /** calculateSettlements on copies of the balances: the same settlements,
      and the caller's objects keep the balances they had. */
  method CalculateSettlementsOnCopies(people: seq<Person>, balances: seq<Balance>) returns (settlements: seq<Settlement>)
    ensures settlements == Settle(people, Snapshot(balances)).settlements
  {
    ghost var before := Snapshot(balances);
    var copies := Copy(balances);
    assert Snapshot(copies) == before;
    assert forall k :: 0 <= k < |balances| ==> balances[k] !in Objects(copies);
    settlements := CalculateSettlements(people, copies);
    assert settlements == Settle(people, before).settlements;
    forall k | 0 <= k < |balances|
      ensures balances[k].personId == before[k].personId && balances[k].balance == before[k].balance
    {
      assert balances[k] !in Objects(copies);
    }
    assert Snapshot(balances) == before;
  }
}
