/** The in-memory trip ledger and the operations that keep its references
    consistent: deleting a person, deleting a category, and saving an
    expense from the form. The ledger's three lists are updated in place. */
module TripLedger {
  import opened Records

  // ---------------------------------------------------------------------
  // The filters.

  /** `ids.filter(x => x !== id)`. */
  function RemoveId(ids: seq<Id>, id: Id): (r: seq<Id>)
    ensures |r| <= |ids|
    decreases |ids|
  {
    if ids == [] then []
    else (if ids[0] == id then [] else [ids[0]]) + RemoveId(ids[1..], id)
  }

  /** Every occurrence of `id` goes and every other id keeps its count. */
  lemma {:induction false} RemoveIdCounts(ids: seq<Id>, id: Id)
    ensures multiset(RemoveId(ids, id)) == multiset(ids)[id := 0]
    decreases |ids|
  {
    if ids != [] {
      RemoveIdCounts(ids[1..], id);
      assert ids == [ids[0]] + ids[1..];
    }
  }

  /** What remains is exactly the other ids, and `id` is gone. */
  lemma RemoveIdMembers(ids: seq<Id>, id: Id)
    ensures id !in RemoveId(ids, id)
    ensures forall x :: x in RemoveId(ids, id) <==> x in ids && x != id
  {
    var r := RemoveId(ids, id);
    RemoveIdCounts(ids, id);
    forall x ensures x in r <==> x in ids && x != id {
      assert x in r <==> x in multiset(r);
      assert x in ids <==> x in multiset(ids);
    }
  }

  /** The filter works element by element, so it keeps the order of what it
      keeps. */
  lemma {:induction false} RemoveIdConcat(a: seq<Id>, b: seq<Id>, id: Id)
    ensures RemoveId(a + b, id) == RemoveId(a, id) + RemoveId(b, id)
    decreases |a|
  {
    if a == [] {
      assert a + b == b;
    } else {
      var h := if a[0] == id then [] else [a[0]];
      assert (a + b)[0] == a[0];
      assert (a + b)[1..] == a[1..] + b;
      assert RemoveId(a + b, id) == h + RemoveId(a[1..] + b, id);
      RemoveIdConcat(a[1..], b, id);
      assert h + (RemoveId(a[1..], id) + RemoveId(b, id)) == (h + RemoveId(a[1..], id)) + RemoveId(b, id);
    }
  }

  /** A list without `id` is left as it is; in particular the filter is
      idempotent. */
  lemma {:induction false} RemoveIdAbsent(ids: seq<Id>, id: Id)
    requires id !in ids
    ensures RemoveId(ids, id) == ids
    decreases |ids|
  {
    if ids != [] {
      RemoveIdAbsent(ids[1..], id);
      assert ids == [ids[0]] + ids[1..];
    }
  }

  /** `people.filter(p => p.id !== personId)`. */
  function WithoutPerson(people: seq<Person>, id: Id): (r: seq<Person>)
    ensures |r| <= |people|
    decreases |people|
  {
    if people == [] then []
    else (if people[0].id == id then [] else [people[0]]) + WithoutPerson(people[1..], id)
  }

  /** The remaining people are the others, and nobody has the deleted id. */
  lemma {:induction false} WithoutPersonMembers(people: seq<Person>, id: Id, p: Person)
    ensures p in WithoutPerson(people, id) <==> p in people && p.id != id
    decreases |people|
  {
    if people != [] {
      WithoutPersonMembers(people[1..], id, p);
      assert people == [people[0]] + people[1..];
    }
  }

  lemma WithoutPersonIds(people: seq<Person>, id: Id)
    ensures IdSet(WithoutPerson(people, id)) == IdSet(people) - {id}
  {
    var r := WithoutPerson(people, id);
    forall x | x in IdSet(r) ensures x in IdSet(people) - {id} {
      var p :| p in r && p.id == x;
      WithoutPersonMembers(people, id, p);
    }
    forall x | x in IdSet(people) - {id} ensures x in IdSet(r) {
      var p :| p in people && p.id == x;
      WithoutPersonMembers(people, id, p);
    }
  }

  lemma {:induction false} WithoutPersonConcat(a: seq<Person>, b: seq<Person>, id: Id)
    ensures WithoutPerson(a + b, id) == WithoutPerson(a, id) + WithoutPerson(b, id)
    decreases |a|
  {
    if a == [] {
      assert a + b == b;
    } else {
      var h := if a[0].id == id then [] else [a[0]];
      assert (a + b)[0] == a[0];
      assert (a + b)[1..] == a[1..] + b;
      assert WithoutPerson(a + b, id) == h + WithoutPerson(a[1..] + b, id);
      WithoutPersonConcat(a[1..], b, id);
      assert h + (WithoutPerson(a[1..], id) + WithoutPerson(b, id)) == (h + WithoutPerson(a[1..], id)) + WithoutPerson(b, id);
    }
  }

  lemma {:induction false} WithoutPersonAbsent(people: seq<Person>, id: Id)
    requires id !in IdSet(people)
    ensures WithoutPerson(people, id) == people
    decreases |people|
  {
    if people != [] {
      assert IdSet(people[1..]) <= IdSet(people);
      WithoutPersonAbsent(people[1..], id);
      assert people == [people[0]] + people[1..];
    }
  }

  /** `categories.filter(c => c.id !== categoryId)`. The source writes this
      filter and its people counterpart separately, over two record types
      whose `id` fields Dafny cannot abstract over without a trait, so the
      filter and its two lemmas are stated once per type. */
  function WithoutCategory(categories: seq<Category>, id: Id): (r: seq<Category>)
    ensures |r| <= |categories|
    decreases |categories|
  {
    if categories == [] then []
    else (if categories[0].id == id then [] else [categories[0]]) + WithoutCategory(categories[1..], id)
  }

  lemma {:induction false} WithoutCategoryMembers(categories: seq<Category>, id: Id, c: Category)
    ensures c in WithoutCategory(categories, id) <==> c in categories && c.id != id
    decreases |categories|
  {
    if categories != [] {
      WithoutCategoryMembers(categories[1..], id, c);
      assert categories == [categories[0]] + categories[1..];
    }
  }

  lemma {:induction false} WithoutCategoryConcat(a: seq<Category>, b: seq<Category>, id: Id)
    ensures WithoutCategory(a + b, id) == WithoutCategory(a, id) + WithoutCategory(b, id)
    decreases |a|
  {
    if a == [] {
      assert a + b == b;
    } else {
      var h := if a[0].id == id then [] else [a[0]];
      assert (a + b)[0] == a[0];
      assert (a + b)[1..] == a[1..] + b;
      assert WithoutCategory(a + b, id) == h + WithoutCategory(a[1..] + b, id);
      WithoutCategoryConcat(a[1..], b, id);
      assert h + (WithoutCategory(a[1..], id) + WithoutCategory(b, id)) == (h + WithoutCategory(a[1..], id)) + WithoutCategory(b, id);
    }
  }

  // ---------------------------------------------------------------------
  // What a deletion does to one expense.

  /** The loop body of deletePerson for one expense. */
  function ForgetPerson(e: Expense, id: Id): Expense
  {
    e.(paidBy := if e.paidBy == Some(id) then None else e.paidBy,
       splitBetween := RemoveId(e.splitBetween, id))
  }

  /** Afterwards the expense refers to the person nowhere; the other
      participants keep their order, a different payer stays, and every other
      field is unchanged. */
  lemma ForgetPersonSound(e: Expense, id: Id)
    ensures var r := ForgetPerson(e, id);
            && r.paidBy != Some(id) && id !in r.splitBetween
            && (e.paidBy != Some(id) ==> r.paidBy == e.paidBy)
            && (forall x :: x in r.splitBetween <==> x in e.splitBetween && x != id)
            && r.id == e.id && r.description == e.description && r.amount == e.amount
            && r.category == e.category && r.date == e.date
  {
    RemoveIdMembers(e.splitBetween, id);
  }

  /** An expense that does not mention the person is left alone. */
  lemma ForgetPersonUninvolved(e: Expense, id: Id)
    requires e.paidBy != Some(id) && id !in e.splitBetween
    ensures ForgetPerson(e, id) == e
  {
    RemoveIdAbsent(e.splitBetween, id);
  }

  /** After the deletion an expense still takes part in the balances only
      if it keeps a payer and a participant: deleting its payer or its only
      participant drops its whole amount from every balance. */
  lemma ForgetPersonCounts(e: Expense, id: Id)
    ensures Counts(ForgetPerson(e, id))
            <==> HasPayer(e) && e.paidBy.value != id && exists x :: x in e.splitBetween && x != id
  {
    var r := ForgetPerson(e, id);
    RemoveIdMembers(e.splitBetween, id);
    if exists x :: x in e.splitBetween && x != id {
      var x :| x in e.splitBetween && x != id;
      assert x in r.splitBetween;
    }
    if |r.splitBetween| > 0 {
      assert r.splitBetween[0] in r.splitBetween;
    }
  }

  /** The loop body of deleteCategory for one expense. */
  function ForgetCategory(e: Expense, id: Id): Expense
  {
    if e.category == Some(id) then e.(category := None) else e
  }

  lemma ForgetCategorySound(e: Expense, id: Id)
    ensures var r := ForgetCategory(e, id);
            && r.category != Some(id)
            && (e.category != Some(id) ==> r == e)
            && r == e.(category := r.category)
  {
  }

  /** Deleting a person keeps the counted expenses resolved: a remaining
      reference names a remaining person. */
  lemma DeletePreservesResolved(people: seq<Person>, es: seq<Expense>, id: Id)
    requires Resolved(people, es)
    ensures Resolved(WithoutPerson(people, id), seq(|es|, k requires 0 <= k < |es| => ForgetPerson(es[k], id)))
  {
    var es' := seq(|es|, k requires 0 <= k < |es| => ForgetPerson(es[k], id));
    var keys := IdSet(people);
    WithoutPersonIds(people, id);
    forall e' | e' in es' ensures Covered(keys - {id}, e') {
      var k :| 0 <= k < |es| && es'[k] == e';
      assert es[k] in es;
      ForgetPersonCovered(keys, es[k], id);
    }
  }

  /** A reference that survives the deletion names a surviving id. */
  lemma ForgetPersonCovered(keys: set<Id>, e: Expense, id: Id)
    requires Covered(keys, e)
    ensures Covered(keys - {id}, ForgetPerson(e, id))
  {
    var r := ForgetPerson(e, id);
    RemoveIdMembers(e.splitBetween, id);
    if Counts(r) {
      assert r.splitBetween[0] in e.splitBetween;
      assert Counts(e);
    }
  }

  // ---------------------------------------------------------------------
  // Building an expense from the form.

  /** The ids of the people whose checkbox is ticked, in `people` order. */
  function CheckedIds(people: seq<Person>, checked: set<Id>): (r: seq<Id>)
    ensures forall x :: x in r <==> x in IdSet(people) && x in checked
    decreases |people|
  {
    if people == [] then []
    else
      var rest := CheckedIds(people[1..], checked);
      assert IdSet(people) == {people[0].id} + IdSet(people[1..]);
      (if people[0].id in checked then [people[0].id] else []) + rest
  }

  /** The split is empty exactly when no known person is ticked. */
  lemma CheckedIdsEmpty(people: seq<Person>, checked: set<Id>)
    ensures CheckedIds(people, checked) == [] <==> IdSet(people) * checked == {}
  {
    var r := CheckedIds(people, checked);
    if r != [] {
      assert r[0] in IdSet(people) * checked;
    }
    if x :| x in IdSet(people) * checked {
      assert x in r;
    }
  }

  lemma {:induction false} CheckedIdsConcat(a: seq<Person>, b: seq<Person>, checked: set<Id>)
    ensures CheckedIds(a + b, checked) == CheckedIds(a, checked) + CheckedIds(b, checked)
    decreases |a|
  {
    if a == [] {
      assert a + b == b;
    } else {
      var h := if a[0].id in checked then [a[0].id] else [];
      assert (a + b)[0] == a[0];
      assert (a + b)[1..] == a[1..] + b;
      assert CheckedIds(a + b, checked) == h + CheckedIds(a[1..] + b, checked);
      CheckedIdsConcat(a[1..], b, checked);
      assert h + (CheckedIds(a[1..], checked) + CheckedIds(b, checked)) == (h + CheckedIds(a[1..], checked)) + CheckedIds(b, checked);
    }
  }

  /** The `people.forEach` loop that pushes every ticked id. */
  method BuildSplit(people: seq<Person>, checked: set<Id>) returns (split: seq<Id>)
    ensures split == CheckedIds(people, checked)
  {
    split := [];
    for k := 0 to |people|
      invariant split == CheckedIds(people[..k], checked)
    {
      assert people[..k + 1] == people[..k] + [people[k]];
      CheckedIdsConcat(people[..k], [people[k]], checked);
      if people[k].id in checked {
        split := split + [people[k].id];
      }
    }
    assert people[..|people|] == people;
  }

  /** The first expense with the given id, as `expenses.find`. */
  function FindExpense(es: seq<Expense>, id: Id): (r: Option<nat>)
    ensures r.Some? ==> r.value < |es| && es[r.value].id == id
                        && forall m :: 0 <= m < r.value ==> es[m].id != id
    ensures r.None? ==> forall k :: 0 <= k < |es| ==> es[k].id != id
    decreases |es|
  {
    if es == [] then None
    else if es[0].id == id then Some(0)
    else
      match FindExpense(es[1..], id)
      case None => None
      case Some(k) => Some(k + 1)
  }

  /** What the form holds when it is submitted: the `select` values are
      strings, the empty string when nothing is chosen. */
  datatype Form = Form(
    editId: Id,
    description: string,
    amount: real,
    category: Id,
    paidBy: Id,
    date: string,
    checked: set<Id>)

  // ---------------------------------------------------------------------
  // The ledger.

  class Ledger {
    var people: seq<Person>
    var categories: seq<Category>
    var expenses: seq<Expense>

    /** Every counted expense names existing people: the condition under
        which the engine reads the ledger. It is not a class invariant; both
        deletions keep it, and a save keeps it when the payer is known or
        blank (`SavedExpenseResolved`). */
    predicate IsResolved()
      reads this
    {
      Resolved(people, expenses)
    }

    constructor (people: seq<Person>, categories: seq<Category>, expenses: seq<Expense>)
      ensures this.people == people && this.categories == categories && this.expenses == expenses
    {
      this.people := people;
      this.categories := categories;
      this.expenses := expenses;
    }

    /** `deletePerson` once the user has confirmed. */
    method DeletePerson(personId: Id)
      modifies this
      ensures people == WithoutPerson(old(people), personId)
      ensures categories == old(categories)
      ensures |expenses| == |old(expenses)|
      ensures forall k :: 0 <= k < |expenses| ==> expenses[k] == ForgetPerson(old(expenses)[k], personId)
      ensures old(IsResolved()) ==> IsResolved()
    {
      ghost var es0, people0 := expenses, people;
      people := WithoutPerson(people, personId);
      var k := 0;
      while k < |expenses|
        invariant 0 <= k <= |expenses| == |es0|
        invariant people == WithoutPerson(people0, personId) && categories == old(categories)
        invariant forall m :: 0 <= m < k ==> expenses[m] == ForgetPerson(es0[m], personId)
        invariant forall m :: k <= m < |expenses| ==> expenses[m] == es0[m]
      {
        var expense := expenses[k];
        if expense.paidBy == Some(personId) {
          expense := expense.(paidBy := None);
        }
        expense := expense.(splitBetween := RemoveId(expense.splitBetween, personId));
        expenses := expenses[k := expense];
        k := k + 1;
      }
      if Resolved(people0, es0) {
        DeletePreservesResolved(people0, es0, personId);
        assert expenses == seq(|es0|, m requires 0 <= m < |es0| => ForgetPerson(es0[m], personId));
      }
    }

    /** `deleteCategory` once the user has confirmed. */
    method DeleteCategory(categoryId: Id)
      modifies this
      ensures categories == WithoutCategory(old(categories), categoryId)
      ensures people == old(people)
      ensures |expenses| == |old(expenses)|
      ensures forall k :: 0 <= k < |expenses| ==> expenses[k] == ForgetCategory(old(expenses)[k], categoryId)
      ensures old(IsResolved()) ==> IsResolved()
    {
      ghost var es0 := expenses;
      categories := WithoutCategory(categories, categoryId);
      var k := 0;
      while k < |expenses|
        invariant 0 <= k <= |expenses| == |es0|
        invariant categories == WithoutCategory(old(categories), categoryId) && people == old(people)
        invariant forall m :: 0 <= m < k ==> expenses[m] == ForgetCategory(es0[m], categoryId)
        invariant forall m :: k <= m < |expenses| ==> expenses[m] == es0[m]
      {
        if expenses[k].category == Some(categoryId) {
          expenses := expenses[k := expenses[k].(category := None)];
        }
        k := k + 1;
      }
      if Resolved(people, es0) {
        forall e | e in expenses ensures Covered(IdSet(people), e) {
          var m :| 0 <= m < |expenses| && expenses[m] == e;
          assert es0[m] in es0;
          assert Covered(IdSet(people), es0[m]);
        }
      }
    }

    /** `saveExpense`: rejects a form with nobody ticked; otherwise updates
        the first expense with the form's id in place, or appends a new
        expense under `newId` when the form is not an edit. */
    method SaveExpense(form: Form, newId: Id) returns (accepted: bool)
      modifies this
      ensures accepted <==> CheckedIds(old(people), form.checked) != []
      ensures people == old(people) && categories == old(categories)
      ensures !accepted ==> expenses == old(expenses)
      ensures accepted && form.editId == "" ==>
                expenses == old(expenses) + [FromForm(form, newId, CheckedIds(people, form.checked))]
      ensures accepted && form.editId != "" ==>
                expenses == Edited(old(expenses), form, CheckedIds(people, form.checked))
    {
      var splitBetween := BuildSplit(people, form.checked);
      if |splitBetween| == 0 {
        return false;
      }
      accepted := true;
      if form.editId != "" {
        var found := FindExpense(expenses, form.editId);
        if found.Some? {
          var k := found.value;
          expenses := expenses[k := FromForm(form, expenses[k].id, splitBetween)];
        }
      } else {
        expenses := expenses + [FromForm(form, newId, splitBetween)];
      }
    }
  }

  /** The expense the form describes, under identifier `id`. */
  function FromForm(form: Form, id: Id, splitBetween: seq<Id>): Expense
  {
    Expense(id, form.description, form.amount, Some(form.category), Some(form.paidBy), form.date, splitBetween)
  }

  /** The expense list after an edit: the first expense with the edited id
      takes the form's fields and keeps its id; a missing id changes nothing. */
  function Edited(es: seq<Expense>, form: Form, splitBetween: seq<Id>): (r: seq<Expense>)
    ensures |r| == |es|
  {
    match FindExpense(es, form.editId)
    case None => es
    case Some(k) => es[k := FromForm(form, es[k].id, splitBetween)]
  }

  /** An edit replaces one expense, the first with the edited id, and no
      other. */
  lemma EditedOnlyFirstMatch(es: seq<Expense>, form: Form, splitBetween: seq<Id>)
    ensures forall k :: 0 <= k < |es| && (es[k].id != form.editId || exists m :: 0 <= m < k && es[m].id == form.editId)
              ==> Edited(es, form, splitBetween)[k] == es[k]
    ensures forall k :: 0 <= k < |es| && es[k].id == form.editId && (forall m :: 0 <= m < k ==> es[m].id != form.editId)
              ==> Edited(es, form, splitBetween)[k] == FromForm(form, form.editId, splitBetween)
  {
  }

  /** Whatever `saveExpense` stores has at least one participant, all of them
      known people; with a known payer or none chosen, the ledger stays
      resolved. */
  lemma SavedExpenseResolved(people: seq<Person>, es: seq<Expense>, form: Form, id: Id)
    requires Resolved(people, es)
    requires form.paidBy == "" || form.paidBy in IdSet(people)
    requires CheckedIds(people, form.checked) != []
    ensures var split := CheckedIds(people, form.checked);
            && |FromForm(form, id, split).splitBetween| > 0
            && Resolved(people, es + [FromForm(form, id, split)])
            && Resolved(people, Edited(es, form, split))
  {
    var split := CheckedIds(people, form.checked);
    var e := FromForm(form, id, split);
    assert Covered(IdSet(people), e);
    forall x | x in es + [e] ensures Covered(IdSet(people), x) {
      if x != e {
        assert x in es;
      }
    }
    var r := Edited(es, form, split);
    forall x | x in r ensures Covered(IdSet(people), x) {
      var k :| 0 <= k < |r| && r[k] == x;
      if r[k] != es[k] {
        assert Covered(IdSet(people), FromForm(form, es[k].id, split));
      } else {
        assert es[k] in es;
      }
    }
  }
}
