/** The figures of the summary page: the total of all expenses and the
    breakdown of spending by category name. */
module Summary {
  import opened Records

  /** `expenses.reduce((sum, exp) => sum + exp.amount, 0)`, folded from the
      left. Every expense is included, counted or not. */
  function TotalAmount(es: seq<Expense>): real
    decreases |es|
  {
    if es == [] then 0.0 else TotalAmount(es[..|es| - 1]) + es[|es| - 1].amount
  }

  lemma {:induction false} TotalAmountConcat(a: seq<Expense>, b: seq<Expense>)
    ensures TotalAmount(a + b) == TotalAmount(a) + TotalAmount(b)
    decreases |b|
  {
    if b == [] {
      assert a + b == a;
    } else {
      assert (a + b)[..|a + b| - 1] == a + b[..|b| - 1];
      TotalAmountConcat(a, b[..|b| - 1]);
    }
  }

  /** The name an expense is listed under. */
  function CategoryName(categories: seq<Category>, e: Expense): string
  {
    match FindCategory(categories, e.category)
    case Some(c) => c.name
    case None => "Uncategorized"
  }

  /** The icon shown beside it. */
  function CategoryIcon(categories: seq<Category>, e: Expense): string
  {
    match FindCategory(categories, e.category)
    case Some(c) => c.icon
    case None => " "
  }

  /** An expense whose category is null, empty or deleted is listed as
      "Uncategorized" with a blank icon; otherwise under the name and icon of
      the first category with its category id. */
  lemma CategoryFallback(categories: seq<Category>, e: Expense)
    ensures (forall c :: c in categories ==> e.category != Some(c.id)) ==>
              CategoryName(categories, e) == "Uncategorized" && CategoryIcon(categories, e) == " "
    ensures (exists c :: c in categories && e.category == Some(c.id)) ==>
              exists k :: && 0 <= k < |categories| && e.category == Some(categories[k].id)
                          && (forall m :: 0 <= m < k ==> e.category != Some(categories[m].id))
                          && CategoryName(categories, e) == categories[k].name
                          && CategoryIcon(categories, e) == categories[k].icon
  {
    var r := FindCategory(categories, e.category);
    if r.Some? {
      var k :| 0 <= k < |categories| && categories[k] == r.value
               && forall m :: 0 <= m < k ==> categories[m].id != e.category.value;
      assert e.category == Some(categories[k].id);
    }
  }

  /** A row of the breakdown. */
  datatype Row = Row(amount: real, icon: string)

  /** The `categoryBreakdown` object: its own keys in insertion order and the
      row under each. `Object.entries` would list integer-like names such as
      "2024" before the others; that reordering is not modelled. */
  datatype Breakdown = Breakdown(names: seq<string>, rows: map<string, Row>)

  /** The keys are listed once each, and they are exactly the rows. */
  predicate WellFormed(bd: Breakdown)
  {
    && Distinct(bd.names)
    && (forall n :: n in bd.names ==> n in bd.rows)
    && (forall n :: n in bd.rows ==> n in bd.names)
  }

  /** One expense added with an own-property test: an existing row grows,
      an unseen name gets a new row with the expense's icon. */
  function AddOwn(bd: Breakdown, name: string, icon: string, amount: real): Breakdown
  {
    if name in bd.rows then bd.(rows := bd.rows[name := bd.rows[name].(amount := bd.rows[name].amount + amount)])
    else Breakdown(bd.names + [name], bd.rows[name := Row(0.0 + amount, icon)])
  }

  /** The breakdown of a list of expenses, one expense at a time. */
  function BreakdownOf(categories: seq<Category>, es: seq<Expense>): Breakdown
    decreases |es|
  {
    if es == [] then Breakdown([], map[])
    else
      var e := es[|es| - 1];
      AddOwn(BreakdownOf(categories, es[..|es| - 1]), CategoryName(categories, e), CategoryIcon(categories, e), e.amount)
  }

  /** Adding an expense keeps the keys listed once each and in step with the
      rows. */
  lemma AddOwnWellFormed(bd: Breakdown, name: string, icon: string, amount: real)
    requires WellFormed(bd)
    ensures WellFormed(AddOwn(bd, name, icon, amount))
  {
  }

  lemma {:induction false} BreakdownWellFormed(categories: seq<Category>, es: seq<Expense>)
    ensures WellFormed(BreakdownOf(categories, es))
    decreases |es|
  {
    if es != [] {
      var e := es[|es| - 1];
      BreakdownWellFormed(categories, es[..|es| - 1]);
      AddOwnWellFormed(BreakdownOf(categories, es[..|es| - 1]), CategoryName(categories, e), CategoryIcon(categories, e), e.amount);
    }
  }

  /** The `expenses.forEach` loop that fills the breakdown. */
  method CategoryBreakdown(categories: seq<Category>, expenses: seq<Expense>)
    returns (names: seq<string>, rows: map<string, Row>)
    ensures Breakdown(names, rows) == BreakdownOf(categories, expenses)
  {
    names, rows := [], map[];
    for k := 0 to |expenses|
      invariant Breakdown(names, rows) == BreakdownOf(categories, expenses[..k])
    {
      BreakdownStep(categories, expenses, k);
      var categoryName, categoryIcon := CategoryName(categories, expenses[k]), CategoryIcon(categories, expenses[k]);
      names, rows := Accumulate(names, rows, categoryName, categoryIcon, expenses[k].amount);
    }
    assert expenses[..|expenses|] == expenses;
  }

  /** Creates the row at 0 when the name has none, then adds the amount. */
  method Accumulate(names: seq<string>, rows: map<string, Row>, name: string, icon: string, amount: real)
    returns (names': seq<string>, rows': map<string, Row>)
    ensures Breakdown(names', rows') == AddOwn(Breakdown(names, rows), name, icon, amount)
  {
    names', rows' := names, rows;
    if name !in rows' {
      names' := names' + [name];
      rows' := rows'[name := Row(0.0, icon)];
    }
    rows' := rows'[name := rows'[name].(amount := rows'[name].amount + amount)];
  }

  lemma BreakdownStep(categories: seq<Category>, es: seq<Expense>, k: nat)
    requires k < |es|
    ensures BreakdownOf(categories, es[..k + 1])
            == AddOwn(BreakdownOf(categories, es[..k]), CategoryName(categories, es[k]),
                      CategoryIcon(categories, es[k]), es[k].amount)
  {
    assert es[..k + 1][..k] == es[..k];
  }

  /** The sum of the rows, in key order; a key without a row adds nothing. */
  function SumRows(rows: map<string, Row>, names: seq<string>): real
    decreases |names|
  {
    if names == [] then 0.0
    else
      var n := names[|names| - 1];
      SumRows(rows, names[..|names| - 1]) + (if n in rows then rows[n].amount else 0.0)
  }

  lemma {:induction false} SumRowsUpdate(rows: map<string, Row>, names: seq<string>, n: string, row: Row)
    requires Distinct(names)
    ensures SumRows(rows[n := row], names)
            == SumRows(rows, names) + (if n in names then row.amount - (if n in rows then rows[n].amount else 0.0) else 0.0)
    decreases |names|
  {
    if names != [] {
      var init, last := names[..|names| - 1], names[|names| - 1];
      assert names == init + [last];
      assert Distinct(init) by {
        forall i, j | 0 <= i < j < |init| ensures init[i] != init[j] {
          assert init[i] == names[i] && init[j] == names[j];
        }
      }
      SumRowsUpdate(rows, init, n, row);
      if n == last {
        forall i | 0 <= i < |init| ensures init[i] != n {
          assert init[i] == names[i];
        }
      }
    }
  }

  lemma AddOwnSum(bd: Breakdown, name: string, icon: string, amount: real)
    requires WellFormed(bd)
    ensures var r := AddOwn(bd, name, icon, amount);
            SumRows(r.rows, r.names) == SumRows(bd.rows, bd.names) + amount
  {
    var r := AddOwn(bd, name, icon, amount);
    if name in bd.rows {
      SumRowsUpdate(bd.rows, bd.names, name, bd.rows[name].(amount := bd.rows[name].amount + amount));
    } else {
      SumRowsUpdate(bd.rows, bd.names, name, Row(0.0 + amount, icon));
      assert r.names[..|r.names| - 1] == bd.names;
    }
  }

  /** The breakdown accounts for every expense: its rows add up to the total
      of the summary page. */
  lemma {:induction false} BreakdownConserves(categories: seq<Category>, es: seq<Expense>)
    ensures var r := BreakdownOf(categories, es);
            SumRows(r.rows, r.names) == TotalAmount(es)
    decreases |es|
  {
    if es != [] {
      var e := es[|es| - 1];
      BreakdownConserves(categories, es[..|es| - 1]);
      BreakdownWellFormed(categories, es[..|es| - 1]);
      AddOwnSum(BreakdownOf(categories, es[..|es| - 1]), CategoryName(categories, e), CategoryIcon(categories, e), e.amount);
    }
  }

  /** The total of the expenses listed under `name`. */
  function AmountNamed(categories: seq<Category>, es: seq<Expense>, name: string): real
    decreases |es|
  {
    if es == [] then 0.0
    else
      var e := es[|es| - 1];
      AmountNamed(categories, es[..|es| - 1], name) + (if CategoryName(categories, e) == name then e.amount else 0.0)
  }

  /** Each row holds the total of its name's expenses; a name without a row
      has none. */
  lemma {:induction false} BreakdownAmounts(categories: seq<Category>, es: seq<Expense>, name: string)
    ensures var r := BreakdownOf(categories, es);
            && (name in r.rows ==> r.rows[name].amount == AmountNamed(categories, es, name))
            && (name !in r.rows ==> AmountNamed(categories, es, name) == 0.0)
    decreases |es|
  {
    if es != [] {
      BreakdownAmounts(categories, es[..|es| - 1], name);
    }
  }

  /** Some expense of `es` is listed under `name`. */
  predicate Named(categories: seq<Category>, es: seq<Expense>, name: string)
  {
    exists k :: 0 <= k < |es| && CategoryName(categories, es[k]) == name
  }

  /** A name has a row exactly when some expense is listed under it. */
  lemma {:induction false} BreakdownNames(categories: seq<Category>, es: seq<Expense>, name: string)
    ensures name in BreakdownOf(categories, es).rows <==> Named(categories, es, name)
    decreases |es|
  {
    if es != [] {
      BreakdownNames(categories, es[..|es| - 1], name);
      NamedSnoc(categories, es, name);
    }
  }

  lemma NamedSnoc(categories: seq<Category>, es: seq<Expense>, name: string)
    requires es != []
    ensures Named(categories, es, name)
            <==> Named(categories, es[..|es| - 1], name) || CategoryName(categories, es[|es| - 1]) == name
  {
    var init := es[..|es| - 1];
    if Named(categories, es, name) {
      var k :| 0 <= k < |es| && CategoryName(categories, es[k]) == name;
      if k < |init| {
        assert init[k] == es[k];
      }
    }
    if Named(categories, init, name) {
      var k :| 0 <= k < |init| && CategoryName(categories, init[k]) == name;
      assert init[k] == es[k];
    }
    if CategoryName(categories, es[|es| - 1]) == name {
      assert 0 <= |es| - 1 < |es|;
    }
  }

  /** `es[k]` is the first expense listed under `name`. */
  predicate FirstNamed(categories: seq<Category>, es: seq<Expense>, name: string, k: int)
  {
    && 0 <= k < |es| && CategoryName(categories, es[k]) == name
    && forall m :: 0 <= m < k ==> CategoryName(categories, es[m]) != name
  }

  /** A row keeps the icon of the first expense listed under its name. */
  lemma {:induction false} BreakdownIcons(categories: seq<Category>, es: seq<Expense>, name: string)
    requires name in BreakdownOf(categories, es).rows
    ensures exists k :: FirstNamed(categories, es, name, k)
              && BreakdownOf(categories, es).rows[name].icon == CategoryIcon(categories, es[k])
    decreases |es|
  {
    var init, e := es[..|es| - 1], es[|es| - 1];
    var bd := BreakdownOf(categories, init);
    assert BreakdownOf(categories, es) == AddOwn(bd, CategoryName(categories, e), CategoryIcon(categories, e), e.amount);
    if name in bd.rows {
      BreakdownIcons(categories, init, name);
      var k :| FirstNamed(categories, init, name, k) && bd.rows[name].icon == CategoryIcon(categories, init[k]);
      FirstNamedExtends(categories, es, name, k);
    } else {
      BreakdownNames(categories, init, name);
      FirstNamedLast(categories, es, name);
    }
  }

  /** The first match among all but the last expense is the first overall. */
  lemma FirstNamedExtends(categories: seq<Category>, es: seq<Expense>, name: string, k: int)
    requires es != [] && FirstNamed(categories, es[..|es| - 1], name, k)
    ensures FirstNamed(categories, es, name, k) && es[k] == es[..|es| - 1][k]
  {
    var init := es[..|es| - 1];
    forall m | 0 <= m < k ensures CategoryName(categories, es[m]) != name {
      assert es[m] == init[m];
    }
  }

  /** When none of the earlier expenses has the name, the last one is the
      first match. */
  lemma FirstNamedLast(categories: seq<Category>, es: seq<Expense>, name: string)
    requires es != [] && !Named(categories, es[..|es| - 1], name)
    requires CategoryName(categories, es[|es| - 1]) == name
    ensures FirstNamed(categories, es, name, |es| - 1)
  {
    var init := es[..|es| - 1];
    forall m | 0 <= m < |es| - 1 ensures CategoryName(categories, es[m]) != name {
      assert es[m] == init[m];
    }
  }

  // ---------------------------------------------------------------------
  // The breakdown as the source writes it.

  /** The members every plain JavaScript object inherits from
      Object.prototype, all of them truthy. */
  const InheritedNames: set<string> :=
    {"constructor", "hasOwnProperty", "isPrototypeOf", "propertyIsEnumerable",
     "toLocaleString", "toString", "valueOf", "__proto__",
     "__defineGetter__", "__defineSetter__", "__lookupGetter__", "__lookupSetter__"}

  /** One expense added through the test `!categoryBreakdown[name]`: for an
      inherited name the lookup finds the prototype member, so no own row is
      created and the amount is added to the inherited member instead, which
      `Object.entries` does not list. */
  function AddAsWritten(bd: Breakdown, name: string, icon: string, amount: real): Breakdown
  {
    if name in bd.rows then AddOwn(bd, name, icon, amount)
    else if name in InheritedNames then bd
    else AddOwn(bd, name, icon, amount)
  }

  function BreakdownAsWritten(categories: seq<Category>, es: seq<Expense>): Breakdown
    decreases |es|
  {
    if es == [] then Breakdown([], map[])
    else
      var e := es[|es| - 1];
      AddAsWritten(BreakdownAsWritten(categories, es[..|es| - 1]), CategoryName(categories, e), CategoryIcon(categories, e), e.amount)
  }

  /** The two agree on every ledger whose category names avoid the inherited
      members. */
  lemma {:induction false} AsWrittenAgrees(categories: seq<Category>, es: seq<Expense>)
    requires forall k :: 0 <= k < |es| ==> CategoryName(categories, es[k]) !in InheritedNames
    ensures BreakdownAsWritten(categories, es) == BreakdownOf(categories, es)
    decreases |es|
  {
    if es != [] {
      var init := es[..|es| - 1];
      assert forall k :: 0 <= k < |init| ==> init[k] == es[k];
      AsWrittenAgrees(categories, init);
    }
  }

  /** A category named "toString" disappears from the breakdown together with
      its spending: the rows add up to 0 while the total is 10. */
  lemma InheritedNameLosesSpending()
    ensures var categories := [Category("c1", "toString", "T")];
            var es := [Expense("e1", "Dinner", 10.0, Some("c1"), Some("p1"), "2024-01-01", ["p1"])];
            var r := BreakdownAsWritten(categories, es);
            && r == Breakdown([], map[])
            && SumRows(r.rows, r.names) == 0.0
            && TotalAmount(es) == 10.0
            && SumRows(BreakdownOf(categories, es).rows, BreakdownOf(categories, es).names) == 10.0
  {
    var categories := [Category("c1", "toString", "T")];
    var es := [Expense("e1", "Dinner", 10.0, Some("c1"), Some("p1"), "2024-01-01", ["p1"])];
    assert CategoryName(categories, es[0]) == "toString";
    assert es[..0] == [];
    BreakdownConserves(categories, es);
  }
}
