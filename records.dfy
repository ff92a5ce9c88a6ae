/** The records of one trip ledger: people, spending categories and expenses,
    as the surrounding application stores them, and the lookups the engine
    performs on them. Currency amounts are exact reals. */
module Records {

  datatype Option<T> = None | Some(value: T)

  /** Identifiers are opaque strings supplied by the environment. */
  type Id = string

  datatype Person = Person(id: Id, name: string, email: string)

  datatype Category = Category(id: Id, name: string, icon: string)

  /** `category` and `paidBy` are null (None) after a deletion, or the value of
      a form select, which is the empty string when nothing was chosen. */
  datatype Expense = Expense(
    id: Id,
    description: string,
    amount: real,
    category: Option<Id>,
    paidBy: Option<Id>,
    date: string,
    splitBetween: seq<Id>)

  /** A debtor or creditor record: a person and a positive magnitude. */
  datatype Entry = Entry(personId: Id, amount: real)

  /** No identifier occurs twice. */
  predicate Distinct(ids: seq<Id>)
  {
    forall i, j :: 0 <= i < j < |ids| ==> ids[i] != ids[j]
  }

  /** The set of identifiers of a list of people. */
  function IdSet(people: seq<Person>): set<Id>
  {
    set p | p in people :: p.id
  }

  /** `!expense.paidBy` is false for null and for the empty string. */
  predicate HasPayer(e: Expense)
  {
    e.paidBy.Some? && e.paidBy.value != ""
  }

  /** The guard of the balance loop: an expense takes part only when it has a
      payer and at least one participant. */
  predicate Counts(e: Expense)
  {
    HasPayer(e) && |e.splitBetween| > 0
  }

  /** Every identifier a counted expense touches is among `keys`. */
  predicate Covered(keys: set<Id>, e: Expense)
  {
    Counts(e) ==> e.paidBy.value in keys && forall id :: id in e.splitBetween ==> id in keys
  }

  /** The referential integrity the engine relies on: each counted expense
      only names people that exist. */
  predicate Resolved(people: seq<Person>, expenses: seq<Expense>)
  {
    forall e :: e in expenses ==> Covered(IdSet(people), e)
  }

  /** `people.find(p => p.id === id)`: the first person with that id. */
  function FindPerson(people: seq<Person>, id: Id): (r: Option<Person>)
    ensures r.Some? <==> id in IdSet(people)
    ensures r.Some? ==> r.value in people && r.value.id == id
    ensures r.Some? ==> exists k :: 0 <= k < |people| && people[k] == r.value
                          && forall m :: 0 <= m < k ==> people[m].id != id
  {
    if people == [] then None
    else if people[0].id == id then Some(people[0])
    else
      var r := FindPerson(people[1..], id);
      assert IdSet(people) == {people[0].id} + IdSet(people[1..]);
      if r.Some? then
        ghost var k :| 0 <= k < |people[1..]| && people[1..][k] == r.value
                       && forall m :: 0 <= m < k ==> people[1..][m].id != id;
        assert people[k + 1] == r.value;
        r
      else r
  }

  /** `categories.find(c => c.id === expense.category)`: the first category
      with that id; a null category matches nothing. */
  function FindCategory(categories: seq<Category>, id: Option<Id>): (r: Option<Category>)
    ensures r.Some? <==> id.Some? && exists c :: c in categories && c.id == id.value
    ensures r.Some? ==> r.value in categories && r.value.id == id.value
    ensures r.Some? ==> exists k :: 0 <= k < |categories| && categories[k] == r.value
                          && forall m :: 0 <= m < k ==> categories[m].id != id.value
  {
    if id.None? || categories == [] then None
    else if categories[0].id == id.value then Some(categories[0])
    else
      var r := FindCategory(categories[1..], id);
      if r.Some? then
        ghost var k :| 0 <= k < |categories[1..]| && categories[1..][k] == r.value
                       && forall m :: 0 <= m < k ==> categories[1..][m].id != id.value;
        assert categories[k + 1] == r.value;
        r
      else
        assert forall c :: c in categories ==> c == categories[0] || c in categories[1..];
        r
  }
}
