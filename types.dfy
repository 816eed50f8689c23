/** The data shapes shared by the calculations and the application state. */
module Types {

  datatype Option<+T> = None | Some(value: T)

  /** A creation timestamp; the model never inspects it. */
  datatype Date = Date(epochMillis: int)

  datatype Person = Person(id: string, name: string)

  /** A recorded payment; `paidBy` names a Person by id. */
  datatype Expense = Expense(id: string, description: string, amount: real, paidBy: string, date: Date)

  /** A directed transfer: `from` pays `to` the given amount. Names, not ids. */
  datatype Settlement = Settlement(from: string, to: string, amount: real)

  /** A named collection of people and their expenses. */
  datatype Group = Group(id: string, name: string, people: seq<Person>, expenses: seq<Expense>, createdAt: Date)

  /** A person's net position. It is an object: the settlement matcher writes
      its `balance` field in place, and the caller sees the new value. */
  class Balance {
    var personId: string
    var balance: real

    constructor (personId: string, balance: real)
      ensures this.personId == personId && this.balance == balance
    {
      this.personId := personId;
      this.balance := balance;
    }
  }

  /** What one Balance object holds at one moment. */
  datatype Entry = Entry(personId: string, balance: real)

  function Objects(bs: seq<Balance>): set<Balance>
  {
    set b | b in bs
  }

  /** No object occurs twice in the array. */
  predicate Distinct(bs: seq<Balance>)
  {
    forall i, j :: 0 <= i < j < |bs| ==> bs[i] != bs[j]
  }

  /** The values the objects hold now, position by position. */
  function Snapshot(bs: seq<Balance>): (r: seq<Entry>)
    reads Objects(bs)
    ensures |r| == |bs|
    ensures forall i :: 0 <= i < |bs| ==> r[i] == Entry(bs[i].personId, bs[i].balance)
  {
    seq(|bs|, i reads Objects(bs) requires 0 <= i < |bs| => Entry(bs[i].personId, bs[i].balance))
  }

  function Values(es: seq<Entry>): (v: seq<real>)
    ensures |v| == |es| && forall i :: 0 <= i < |es| ==> v[i] == es[i].balance
  {
    seq(|es|, i requires 0 <= i < |es| => es[i].balance)
  }

  function Ids(es: seq<Entry>): (ids: seq<string>)
    ensures |ids| == |es| && forall i :: 0 <= i < |es| ==> ids[i] == es[i].personId
  {
    seq(|es|, i requires 0 <= i < |es| => es[i].personId)
  }
}
