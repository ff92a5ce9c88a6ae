/** Worked ledgers, evaluated through the model for any three distinct
    person ids. */
module Scenarios {
  import opened Records
  import opened BalanceCalculator
  import opened StableSort
  import opened Settlements

  function Trio(a: Id, b: Id, c: Id): seq<Person>
  {
    [Person(a, "Asha", ""), Person(b, "Binod", ""), Person(c, "Chitra", "")]
  }

  lemma TrioStart(a: Id, b: Id, c: Id)
    requires a != b && a != c && b != c
    ensures KeyOrder(Trio(a, b, c)) == [a, b, c]
    ensures ZeroBalances(Trio(a, b, c)) == map[a := 0.0, b := 0.0, c := 0.0]
    ensures IdSet(Trio(a, b, c)) == {a, b, c}
  {
    var p := Trio(a, b, c);
    assert p[..0] == [];
    assert p[..1][..0] == [];
    assert p[..2][..1] == p[..1];
    assert p[..|p| - 1] == p[..2];
    assert KeyOrder(p[..1]) == [a];
    assert KeyOrder(p[..2]) == [a, b];
    assert ZeroBalances(p[..1]) == map[a := 0.0];
    assert ZeroBalances(p[..2]) == map[a := 0.0, b := 0.0];
  }

  function Hotel(a: Id, b: Id, c: Id): Expense
  {
    Expense("e1", "Hotel", 90.0, None, Some(a), "", [a, b, c])
  }

  lemma DebitThree(m: map<Id, real>, a: Id, b: Id, c: Id, share: real)
    requires a in m && b in m && c in m
    ensures Debit(m, [a, b, c], share) == m[a := m[a] - share][b := m[a := m[a] - share][b] - share]
                                           [c := m[a := m[a] - share][b := m[a := m[a] - share][b] - share][c] - share]
  {
    var ids := [a, b, c];
    assert ids[1..] == [b, c] && ids[1..][1..] == [c] && ids[1..][1..][1..] == [];
    var m1 := m[a := m[a] - share];
    var m2 := m1[b := m1[b] - share];
    var m3 := m2[c := m2[c] - share];
    assert Debit(m, ids, share) == Debit(m1, [b, c], share);
    assert Debit(m1, [b, c], share) == Debit(m2, [c], share);
    assert Debit(m2, [c], share) == Debit(m3, [], share) == m3;
  }

  lemma HotelApply(a: Id, b: Id, c: Id)
    requires a != b && a != c && b != c && a != ""
    ensures ApplyExpense(map[a := 0.0, b := 0.0, c := 0.0], Hotel(a, b, c)) == map[a := 60.0, b := -30.0, c := -30.0]
  {
    var z := map[a := 0.0, b := 0.0, c := 0.0];
    var e := Hotel(a, b, c);
    assert Counts(e);
    assert Share(e.amount, |e.splitBetween|) == 30.0;
    DebitThree(z[a := 90.0], a, b, c, 30.0);
    assert ApplyExpense(z, e) == Debit(z[a := 90.0], [a, b, c], 30.0);
  }

  lemma HotelBalances(a: Id, b: Id, c: Id)
    requires a != b && a != c && b != c && a != ""
    ensures Resolved(Trio(a, b, c), [Hotel(a, b, c)])
    ensures Balances(Trio(a, b, c), [Hotel(a, b, c)]) == map[a := 60.0, b := -30.0, c := -30.0]
  {
    TrioStart(a, b, c);
    HotelApply(a, b, c);
    var z := map[a := 0.0, b := 0.0, c := 0.0];
    var es := [Hotel(a, b, c)];
    assert es[1..] == [];
    assert ApplyAll(z, es) == ApplyAll(ApplyExpense(z, es[0]), []);
  }

  lemma HotelClassify(a: Id, b: Id, c: Id)
    requires a != b && a != c && b != c
    ensures Classify([a, b, c], map[a := 60.0, b := -30.0, c := -30.0])
            == ([Entry(b, 30.0), Entry(c, 30.0)], [Entry(a, 60.0)])
  {
    var m := map[a := 60.0, b := -30.0, c := -30.0];
    var ds, cs := [Entry(b, 30.0), Entry(c, 30.0)], [Entry(a, 60.0)];
    var o1, o2, o3 := [a, b, c], [b, c], [c];
    assert o3[1..] == [] && o2[1..] == o3 && o1[1..] == o2;
    assert -m[c] == 30.0 && -m[b] == 30.0 && m[a] == 60.0;
    var none: seq<Entry> := [];
    var r3 := Classify(o3, m);
    assert r3 == ([Entry(c, -m[c])] + Classify(o3[1..], m).0, Classify(o3[1..], m).1);
    assert [Entry(c, 30.0)] + none == [Entry(c, 30.0)];
    assert r3 == ([Entry(c, 30.0)], none);
    var r2 := Classify(o2, m);
    assert r2 == ([Entry(b, -m[b])] + r3.0, r3.1);
    assert [Entry(b, 30.0)] + [Entry(c, 30.0)] == ds;
    var r1 := Classify(o1, m);
    assert r1 == (r2.0, [Entry(a, m[a])] + r2.1);
    assert [Entry(a, 60.0)] + none == cs;
  }

  lemma HotelSorted(a: Id, b: Id, c: Id)
    ensures SortDesc([Entry(b, 30.0), Entry(c, 30.0)]) == [Entry(b, 30.0), Entry(c, 30.0)]
    ensures SortDesc([Entry(a, 60.0)]) == [Entry(a, 60.0)]
  {
    var ds, cs := [Entry(b, 30.0), Entry(c, 30.0)], [Entry(a, 60.0)];
    assert ds[..1] == [ds[0]] && ds[..1][..0] == [] && cs[..0] == [];
    assert SortDesc(ds[..1]) == [ds[0]];
    assert Insert([ds[0]], ds[1]) == ds;
  }

  lemma HotelSteps(a: Id, b: Id, c: Id)
    ensures Plan([Entry(b, 30.0), Entry(c, 30.0)], [Entry(a, 60.0)]) == [Step(b, a, 30.0), Step(c, a, 30.0)]
  {
    var ds, cs := [Entry(b, 30.0), Entry(c, 30.0)], [Entry(a, 60.0)];
    assert Advance(ds, 30.0) == [Entry(c, 30.0)];
    assert Advance(cs, 30.0) == [Entry(a, 30.0)];
    assert Advance([Entry(c, 30.0)], 30.0) == [];
    assert Plan([Entry(c, 30.0)], [Entry(a, 30.0)]) == [Step(c, a, 30.0)] + Plan([], []);
    assert Plan(ds, cs) == [Step(b, a, 30.0)] + Plan([Entry(c, 30.0)], [Entry(a, 30.0)]);
  }

  lemma HotelEmit(a: Id, b: Id, c: Id)
    requires a != b && a != c && b != c
    ensures Emit(Trio(a, b, c), [Step(b, a, 30.0), Step(c, a, 30.0)])
            == [Settlement("Binod", "Asha", 30.0), Settlement("Chitra", "Asha", 30.0)]
  {
    var p := Trio(a, b, c);
    var steps := [Step(b, a, 30.0), Step(c, a, 30.0)];
    assert p[1..][0] == p[1] && p[1..][1..][0] == p[2];
    assert FindPerson(p, b) == Some(p[1]);
    assert FindPerson(p, c) == Some(p[2]);
    assert FindPerson(p, a) == Some(p[0]);
    assert steps[1..][1..] == [];
    assert Emit(p, steps[1..]) == [Settlement("Chitra", "Asha", 30.0)] + Emit(p, []);
  }

  /** One payer, an equal three-way split: the other two each pay back their
      share, in the order the people were added. */
  lemma EqualSplit(a: Id, b: Id, c: Id)
    requires a != b && a != c && b != c && a != ""
    ensures Resolved(Trio(a, b, c), [Hotel(a, b, c)])
    ensures Balances(Trio(a, b, c), [Hotel(a, b, c)]) == map[a := 60.0, b := -30.0, c := -30.0]
    ensures SettlementsOf(Trio(a, b, c), [Hotel(a, b, c)])
            == [Settlement("Binod", "Asha", 30.0), Settlement("Chitra", "Asha", 30.0)]
  {
    TrioStart(a, b, c);
    HotelBalances(a, b, c);
    HotelClassify(a, b, c);
    HotelSorted(a, b, c);
    HotelSteps(a, b, c);
    HotelEmit(a, b, c);
  }

  // ---------------------------------------------------------------------
  // Balances inside the tolerance are never settled.

  function Snacks(a: Id, b: Id, c: Id): seq<Expense>
  {
    [Expense("e1", "Tea", 0.009, None, Some(b), "", [a]),
     Expense("e2", "Tea", 0.009, None, Some(c), "", [a])]
  }

  lemma DebitOne(m: map<Id, real>, a: Id, share: real)
    requires a in m
    ensures Debit(m, [a], share) == m[a := m[a] - share]
  {
    assert [a][1..] == [];
  }

  lemma SnacksEach(a: Id, b: Id, c: Id)
    requires a != b && a != c && b != c && b != "" && c != ""
    ensures ApplyExpense(map[a := 0.0, b := 0.0, c := 0.0], Snacks(a, b, c)[0])
            == map[a := -0.009, b := 0.009, c := 0.0]
    ensures ApplyExpense(map[a := -0.009, b := 0.009, c := 0.0], Snacks(a, b, c)[1])
            == map[a := -0.018, b := 0.009, c := 0.009]
  {
    var z, z1 := map[a := 0.0, b := 0.0, c := 0.0], map[a := -0.009, b := 0.009, c := 0.0];
    assert Share(0.009, 1) == 0.009;
    DebitOne(z[b := 0.009], a, 0.009);
    DebitOne(z1[c := 0.009], a, 0.009);
  }

  lemma SnacksBalances(a: Id, b: Id, c: Id)
    requires a != b && a != c && b != c && b != "" && c != ""
    ensures Resolved(Trio(a, b, c), Snacks(a, b, c))
    ensures Balances(Trio(a, b, c), Snacks(a, b, c)) == map[a := -0.018, b := 0.009, c := 0.009]
  {
    TrioStart(a, b, c);
    SnacksEach(a, b, c);
    var es := Snacks(a, b, c);
    var z, z1 := map[a := 0.0, b := 0.0, c := 0.0], map[a := -0.009, b := 0.009, c := 0.0];
    assert es[1..][1..] == [];
    assert ApplyAll(z, es) == ApplyAll(z1, es[1..]);
    assert ApplyAll(z1, es[1..]) == ApplyAll(ApplyExpense(z1, es[1]), []);
  }

  /** A debt of 0.018 owed to two people 0.009 each: the debtor is beyond the
      tolerance but neither creditor is, so nothing is suggested and the debt
      stays. Settling therefore leaves a balance outside the tolerance even
      though the balances sum to 0. */
  lemma ToleranceLeavesDebt(a: Id, b: Id, c: Id)
    requires a != b && a != c && b != c && b != "" && c != ""
    ensures Resolved(Trio(a, b, c), Snacks(a, b, c))
    ensures Balances(Trio(a, b, c), Snacks(a, b, c))[a] < -Eps
    ensures SettlementsOf(Trio(a, b, c), Snacks(a, b, c)) == []
  {
    SnacksBalances(a, b, c);
    TrioStart(a, b, c);
    SnacksClassify(a, b, c);
    var p, es := Trio(a, b, c), Snacks(a, b, c);
    var lists := Classify(KeyOrder(p), Balances(p, es));
    var none: seq<Entry> := [];
    assert lists == ([Entry(a, 0.018)], none);
    assert SortDesc(lists.1) == none;
    assert Plan(SortDesc(lists.0), SortDesc(lists.1)) == [];
    assert SettlementsOf(p, es) == Emit(p, []);
  }

  lemma SnacksClassify(a: Id, b: Id, c: Id)
    requires a != b && a != c && b != c
    ensures Classify([a, b, c], map[a := -0.018, b := 0.009, c := 0.009]) == ([Entry(a, 0.018)], [])
  {
    var m := map[a := -0.018, b := 0.009, c := 0.009];
    var o1, o2, o3 := [a, b, c], [b, c], [c];
    assert o3[1..] == [] && o2[1..] == o3 && o1[1..] == o2;
    var none: seq<Entry> := [];
    assert Classify(o3[1..], m) == (none, none);
    assert m[c] == 0.009 && m[b] == 0.009 && -m[a] == 0.018;
    assert Classify(o3, m) == (none, none);
    assert Classify(o2, m) == (none, none);
    assert Classify(o1, m) == ([Entry(a, -m[a])] + none, none);
    assert [Entry(a, 0.018)] + none == [Entry(a, 0.018)];
  }

  // ---------------------------------------------------------------------
  // Two debtors, two creditors.

  /** Balances A = +50, B = +30, C = -40, D = -40: the largest debtor pays
      the largest creditor first, and the remaining 10 that A is owed is paid
      by D before D pays B. */
  lemma FourWayMatch(a: Id, b: Id, c: Id, d: Id)
    ensures Plan([Entry(c, 40.0), Entry(d, 40.0)], [Entry(a, 50.0), Entry(b, 30.0)])
            == [Step(c, a, 40.0), Step(d, a, 10.0), Step(d, b, 30.0)]
  {
    var ds, cs := [Entry(c, 40.0), Entry(d, 40.0)], [Entry(a, 50.0), Entry(b, 30.0)];
    assert Advance(ds, 40.0) == [Entry(d, 40.0)];
    assert Advance(cs, 40.0) == [Entry(a, 10.0), Entry(b, 30.0)];
    assert Advance([Entry(d, 40.0)], 10.0) == [Entry(d, 30.0)];
    assert Advance([Entry(a, 10.0), Entry(b, 30.0)], 10.0) == [Entry(b, 30.0)];
    assert Plan([Entry(d, 30.0)], [Entry(b, 30.0)]) == [Step(d, b, 30.0)] + Plan([], []);
    assert Plan([Entry(d, 40.0)], [Entry(a, 10.0), Entry(b, 30.0)])
           == [Step(d, a, 10.0)] + Plan([Entry(d, 30.0)], [Entry(b, 30.0)]);
    assert Plan(ds, cs) == [Step(c, a, 40.0)] + Plan([Entry(d, 40.0)], [Entry(a, 10.0), Entry(b, 30.0)]);
  }

  /** Both lists of that ledger are already in descending order, with C
      before D as the people are listed. */
  lemma FourWaySorted(a: Id, b: Id, c: Id, d: Id)
    ensures SortDesc([Entry(c, 40.0), Entry(d, 40.0)]) == [Entry(c, 40.0), Entry(d, 40.0)]
    ensures SortDesc([Entry(a, 50.0), Entry(b, 30.0)]) == [Entry(a, 50.0), Entry(b, 30.0)]
  {
    var ds, cs := [Entry(c, 40.0), Entry(d, 40.0)], [Entry(a, 50.0), Entry(b, 30.0)];
    assert ds[..1] == [ds[0]] && ds[..1][..0] == [] && cs[..1] == [cs[0]] && cs[..1][..0] == [];
    assert SortDesc(ds[..1]) == [ds[0]];
    assert SortDesc(cs[..1]) == [cs[0]];
    assert Insert([ds[0]], ds[1]) == ds;
    assert Insert([cs[0]], cs[1]) == cs;
  }
}
