/** The settlement minimiser: balances are split into debtors and creditors
    beyond a one-cent tolerance, both lists are sorted by descending amount,
    and a two-cursor greedy loop pays the current creditor from the current
    debtor, moving a cursor on once its remainder falls below the tolerance. */
module Settlements {
  import opened Records
  import opened BalanceCalculator
  import opened StableSort

  /** One cent: the tolerance below which a balance counts as settled. */
  const Eps: real := 0.01

  /** One iteration of the greedy loop: who pays whom and how much. */
  datatype Step = Step(debtor: Id, creditor: Id, amount: real)

  /** A suggested payment as the source reports it, by display name. */
  datatype Settlement = Settlement(from: string, to: string, amount: real)

  /** The ids of a list of records. */
  function Ids(s: seq<Entry>): set<Id>
  {
    set x | x in s :: x.personId
  }

  // ---------------------------------------------------------------------
  // Debtors and creditors.

  /** The debtor and creditor lists built from the balance dictionary's
      entries, in key order. */
  function Classify(order: seq<Id>, b: map<Id, real>): (seq<Entry>, seq<Entry>)
    requires forall id :: id in order ==> id in b
    decreases |order|
  {
    if order == [] then ([], [])
    else
      var id := order[0];
      var rest := Classify(order[1..], b);
      if b[id] < -Eps then ([Entry(id, -b[id])] + rest.0, rest.1)
      else if b[id] > Eps then (rest.0, [Entry(id, b[id])] + rest.1)
      else rest
  }

  /** Membership in the two lists. */
  lemma {:induction false} ClassifyMembers(order: seq<Id>, b: map<Id, real>, x: Entry)
    requires forall id :: id in order ==> id in b
    ensures x in Classify(order, b).0 <==> x.personId in order && b[x.personId] < -Eps && x.amount == -b[x.personId]
    ensures x in Classify(order, b).1 <==> x.personId in order && b[x.personId] > Eps && x.amount == b[x.personId]
    decreases |order|
  {
    if order != [] {
      ClassifyMembers(order[1..], b, x);
      assert x.personId in order <==> x.personId == order[0] || x.personId in order[1..];
    }
  }

  lemma ClassifyStep(order: seq<Id>, b: map<Id, real>, k: nat)
    requires forall id :: id in order ==> id in b
    requires k < |order|
    ensures var id, rest := order[k], Classify(order[k + 1..], b);
            && Classify(order[k..], b).0 == (if b[id] < -Eps then [Entry(id, -b[id])] else []) + rest.0
            && Classify(order[k..], b).1 == (if b[id] < -Eps || b[id] <= Eps then [] else [Entry(id, b[id])]) + rest.1
  {
    assert order[k..][0] == order[k];
    assert order[k..][1..] == order[k + 1..];
    var rest := Classify(order[k + 1..], b);
    assert [] + rest.0 == rest.0 && [] + rest.1 == rest.1;
  }

  /** Classification works entry by entry, so each list keeps the order of
      the keys it comes from. */
  lemma {:induction false} ClassifyConcat(a: seq<Id>, c: seq<Id>, b: map<Id, real>)
    requires forall id :: id in a + c ==> id in b
    ensures Classify(a + c, b).0 == Classify(a, b).0 + Classify(c, b).0
    ensures Classify(a + c, b).1 == Classify(a, b).1 + Classify(c, b).1
    decreases |a|
  {
    if a == [] {
      assert a + c == c;
    } else {
      var ac := a + c;
      assert ac[0] == a[0] && ac[1..] == a[1..] + c;
      assert ac[0..] == ac && a[0..] == a;
      assert forall id :: id in a ==> id in ac;
      ClassifyStep(ac, b, 0);
      ClassifyStep(a, b, 0);
      ClassifyConcat(a[1..], c, b);
      var id := a[0];
      var h0: seq<Entry> := if b[id] < -Eps then [Entry(id, -b[id])] else [];
      var h1: seq<Entry> := if b[id] < -Eps || b[id] <= Eps then [] else [Entry(id, b[id])];
      var r, s := Classify(a[1..], b), Classify(c, b);
      assert h0 + (r.0 + s.0) == (h0 + r.0) + s.0;
      assert h1 + (r.1 + s.1) == (h1 + r.1) + s.1;
    }
  }

  /** The `Object.entries(balances).forEach` loop that fills the two lists. */
  method Partition(order: seq<Id>, b: map<Id, real>) returns (debtors: seq<Entry>, creditors: seq<Entry>)
    requires forall id :: id in order ==> id in b
    ensures (debtors, creditors) == Classify(order, b)
  {
    debtors, creditors := [], [];
    ghost var all := Classify(order, b);
    assert order[0..] == order;
    for k := 0 to |order|
      invariant all.0 == debtors + Classify(order[k..], b).0
      invariant all.1 == creditors + Classify(order[k..], b).1
    {
      ClassifyStep(order, b, k);
      ghost var rest := Classify(order[k + 1..], b);
      var personId := order[k];
      var balance := b[personId];
      if balance < -Eps {
        assert debtors + ([Entry(personId, -balance)] + rest.0) == (debtors + [Entry(personId, -balance)]) + rest.0;
        debtors := debtors + [Entry(personId, -balance)];
      } else if balance > Eps {
        assert creditors + ([Entry(personId, balance)] + rest.1) == (creditors + [Entry(personId, balance)]) + rest.1;
        creditors := creditors + [Entry(personId, balance)];
      }
    }
    assert order[|order|..] == [];
    assert Classify(order[|order|..], b) == ([], []);
    assert debtors + [] == debtors && creditors + [] == creditors;
  }

  /** Every debtor is a person whose balance is below -Eps and records its
      magnitude; every creditor's balance is above Eps; people within the
      tolerance are in neither list, and nobody is in both. */
  lemma ClassifySound(order: seq<Id>, b: map<Id, real>, id: Id)
    requires forall x :: x in order ==> x in b
    requires id in order
    ensures Entry(id, -b[id]) in Classify(order, b).0 <==> b[id] < -Eps
    ensures Entry(id, b[id]) in Classify(order, b).1 <==> b[id] > Eps
    ensures -Eps <= b[id] <= Eps ==> id !in Ids(Classify(order, b).0) && id !in Ids(Classify(order, b).1)
    ensures !(id in Ids(Classify(order, b).0) && id in Ids(Classify(order, b).1))
  {
    ClassifyMembers(order, b, Entry(id, -b[id]));
    ClassifyMembers(order, b, Entry(id, b[id]));
    if x :| x in Classify(order, b).0 && x.personId == id {
      ClassifyMembers(order, b, x);
    }
    if x :| x in Classify(order, b).1 && x.personId == id {
      ClassifyMembers(order, b, x);
    }
  }

  // ---------------------------------------------------------------------
  // The greedy loop.

  /** `Math.min`. */
  function Min(a: real, b: real): real
  {
    if a <= b then a else b
  }

  /** Subtracts `amount` from the record under the cursor and moves the
      cursor on when less than Eps is left. */
  function Advance(s: seq<Entry>, amount: real): (r: seq<Entry>)
    requires s != []
    ensures |r| == if s[0].amount - amount < Eps then |s| - 1 else |s|
  {
    var left := s[0].amount - amount;
    if left < Eps then s[1..] else [s[0].(amount := left)] + s[1..]
  }

  /** The steps of the `while` loop, from the two sorted lists. Each step
      drives at least one remainder to 0, which is below Eps, so at least one
      cursor moves: the loop terminates. */
  function Plan(ds: seq<Entry>, cs: seq<Entry>): seq<Step>
    decreases |ds| + |cs|
  {
    if ds == [] || cs == [] then []
    else
      var amount := Min(ds[0].amount, cs[0].amount);
      [Step(ds[0].personId, cs[0].personId, amount)] + Plan(Advance(ds, amount), Advance(cs, amount))
  }

  /** A step becomes a settlement only if both ids name a person. */
  function Emit(people: seq<Person>, steps: seq<Step>): seq<Settlement>
  {
    if steps == [] then [] else EmitOne(people, steps[0]) + Emit(people, steps[1..])
  }

  /** The settlement of one step, by the names of its two parties. */
  function EmitOne(people: seq<Person>, step: Step): seq<Settlement>
  {
    var from := FindPerson(people, step.debtor);
    var to := FindPerson(people, step.creditor);
    if from.Some? && to.Some? then [Settlement(from.value.name, to.value.name, step.amount)] else []
  }

  /** The list `calculateSettlements` returns. */
  function SettlementsOf(people: seq<Person>, es: seq<Expense>): seq<Settlement>
    requires Resolved(people, es)
  {
    var lists := Classify(KeyOrder(people), Balances(people, es));
    Emit(people, Plan(SortDesc(lists.0), SortDesc(lists.1)))
  }

  /** `calculateSettlements`. */
  method CalculateSettlements(people: seq<Person>, expenses: seq<Expense>)
    returns (settlements: seq<Settlement>)
    requires Resolved(people, expenses)
    ensures settlements == SettlementsOf(people, expenses)
  {
    var balances, order := CalculateBalances(people, expenses);
    var ds, cs := Partition(order, balances);
    var debtors := SortedArray(ds);
    var creditors := SortedArray(cs);
    settlements := Match(people, debtors, creditors);
  }

  /** A fresh array holding `entries`, sorted in place by decreasing amount. */
  method SortedArray(entries: seq<Entry>) returns (a: array<Entry>)
    ensures fresh(a)
    ensures a[..] == SortDesc(entries)
  {
    a := new Entry[|entries|](k requires 0 <= k < |entries| => entries[k]);
    assert a[..] == entries;
    SortInPlace(a);
  }

  /** The two-cursor loop over the sorted arrays, which it updates in place. */
  method Match(people: seq<Person>, debtors: array<Entry>, creditors: array<Entry>)
    returns (settlements: seq<Settlement>)
    requires debtors != creditors
    modifies debtors, creditors
    ensures settlements == Emit(people, Plan(old(debtors[..]), old(creditors[..])))
  {
    ghost var plan := Plan(debtors[..], creditors[..]);
    ghost var done: seq<Step> := [];
    ghost var ds, cs := debtors[..], creditors[..];
    settlements := [];
    var i, j := 0, 0;
    assert ds[0..] == ds && cs[0..] == cs;
    assert Rest(ds, cs, 0, 0) == plan;
    while i < debtors.Length && j < creditors.Length
      invariant 0 <= i <= debtors.Length && 0 <= j <= creditors.Length
      invariant debtors[..] == ds && creditors[..] == cs
      invariant plan == done + Rest(ds, cs, i, j)
      invariant settlements == Emit(people, done)
      decreases debtors.Length - i + creditors.Length - j
    {
      var step, i', j' := Transfer(debtors, creditors, i, j);
      ghost var ds', cs' := debtors[..], creditors[..];
      MatchStep(ds, cs, i, j, step.amount, ds', cs', i', j');
      settlements := Record(people, settlements, step);
      EmitConcat(people, done, [step]);
      Regroup(done, step, Rest(ds', cs', i', j'));
      done := done + [step];
      i, j := i', j';
      ds, cs := ds', cs';
    }
    PlanStops(ds, cs, i, j);
    assert done + [] == done;
  }

  /** The body of the loop: pays the smaller of the two remainders, lowers
      both in place and moves each cursor whose remainder is below Eps. */
  method Transfer(debtors: array<Entry>, creditors: array<Entry>, i: nat, j: nat)
    returns (step: Step, i': nat, j': nat)
    requires debtors != creditors
    requires i < debtors.Length && j < creditors.Length
    modifies debtors, creditors
    ensures step == Step(old(debtors[i]).personId, old(creditors[j]).personId,
                         Min(old(debtors[i]).amount, old(creditors[j]).amount))
    ensures debtors[..] == old(debtors[..])[i := old(debtors[i]).(amount := old(debtors[i]).amount - step.amount)]
    ensures creditors[..] == old(creditors[..])[j := old(creditors[j]).(amount := old(creditors[j]).amount - step.amount)]
    ensures i' == if debtors[i].amount < Eps then i + 1 else i
    ensures j' == if creditors[j].amount < Eps then j + 1 else j
  {
    var debtor := debtors[i];
    var creditor := creditors[j];
    var amount := Min(debtor.amount, creditor.amount);
    step := Step(debtor.personId, creditor.personId, amount);
    debtors[i] := debtor.(amount := debtor.amount - amount);
    creditors[j] := creditor.(amount := creditor.amount - amount);
    i', j' := i, j;
    if debtors[i].amount < Eps {
      i' := i + 1;
    }
    if creditors[j].amount < Eps {
      j' := j + 1;
    }
  }

  /** The settlement for one step is appended only when both ids name a
      person. */
  method Record(people: seq<Person>, settlements: seq<Settlement>, step: Step)
    returns (r: seq<Settlement>)
    ensures r == settlements + Emit(people, [step])
  {
    var debtorPerson := FindPerson(people, step.debtor);
    var creditorPerson := FindPerson(people, step.creditor);
    r := settlements;
    if debtorPerson.Some? && creditorPerson.Some? {
      r := r + [Settlement(debtorPerson.value.name, creditorPerson.value.name, step.amount)];
    }
  }

  lemma Regroup(done: seq<Step>, step: Step, rest: seq<Step>)
    ensures done + ([step] + rest) == (done + [step]) + rest
  {
  }

  lemma PlanStops(ds: seq<Entry>, cs: seq<Entry>, i: nat, j: nat)
    requires i <= |ds| && j <= |cs| && (i == |ds| || j == |cs|)
    ensures Rest(ds, cs, i, j) == []
  {
  }

  /** The steps still to come when the cursors stand at `i` and `j`. */
  function Rest(ds: seq<Entry>, cs: seq<Entry>, i: nat, j: nat): seq<Step>
    requires i <= |ds| && j <= |cs|
  {
    Plan(ds[i..], cs[j..])
  }

  /** One iteration of the loop, stated on the arrays' contents: after the
      update in place and the cursor moves, the rest of the plan starts from
      the new cursor positions. */
  lemma MatchStep(ds: seq<Entry>, cs: seq<Entry>, i: nat, j: nat,
                  amount: real, ds': seq<Entry>, cs': seq<Entry>, i': nat, j': nat)
    requires i < |ds| && j < |cs|
    requires amount == Min(ds[i].amount, cs[j].amount)
    requires ds' == ds[i := ds[i].(amount := ds[i].amount - amount)]
    requires cs' == cs[j := cs[j].(amount := cs[j].amount - amount)]
    requires i' == if ds'[i].amount < Eps then i + 1 else i
    requires j' == if cs'[j].amount < Eps then j + 1 else j
    requires i' <= |ds'| && j' <= |cs'|
    ensures Rest(ds, cs, i, j) == [Step(ds[i].personId, cs[j].personId, amount)] + Rest(ds', cs', i', j')
  {
    assert ds[i..][0] == ds[i] && cs[j..][0] == cs[j];
    AdvanceSlice(ds, i, amount);
    AdvanceSlice(cs, j, amount);
  }

  /** Advance on a suffix is the update in place followed by the cursor move. */
  lemma AdvanceSlice(s: seq<Entry>, i: nat, amount: real)
    requires i < |s|
    ensures var s' := s[i := s[i].(amount := s[i].amount - amount)];
            var i' := if s'[i].amount < Eps then i + 1 else i;
            Advance(s[i..], amount) == s'[i'..]
  {
    var s' := s[i := s[i].(amount := s[i].amount - amount)];
    assert s[i..][1..] == s[i + 1..] == s'[i + 1..];
    assert s'[i..] == [s'[i]] + s'[i + 1..];
  }

  lemma {:induction false} EmitConcat(people: seq<Person>, a: seq<Step>, b: seq<Step>)
    ensures Emit(people, a + b) == Emit(people, a) + Emit(people, b)
    decreases |a|
  {
    if a == [] {
      assert a + b == b;
    } else {
      var h := EmitOne(people, a[0]);
      assert (a + b)[0] == a[0];
      assert (a + b)[1..] == a[1..] + b;
      assert Emit(people, a + b) == h + Emit(people, a[1..] + b);
      EmitConcat(people, a[1..], b);
      assert h + (Emit(people, a[1..]) + Emit(people, b)) == (h + Emit(people, a[1..])) + Emit(people, b);
    }
  }

  // ---------------------------------------------------------------------
  // Properties of the plan.

  /** Every record still owes or is owed at least Eps. */
  predicate AtLeastEps(s: seq<Entry>)
  {
    forall k :: 0 <= k < |s| ==> s[k].amount >= Eps
  }

  /** One step: the amount is the smaller remainder, so it is positive, it
      takes neither remainder below 0, it empties at least one of them, and
      the records left under the cursors still hold at least Eps. */
  lemma StepSound(ds: seq<Entry>, cs: seq<Entry>)
    requires ds != [] && cs != []
    requires AtLeastEps(ds) && AtLeastEps(cs)
    ensures var amount := Min(ds[0].amount, cs[0].amount);
            && Eps <= amount
            && 0.0 <= ds[0].amount - amount && 0.0 <= cs[0].amount - amount
            && (ds[0].amount - amount == 0.0 || cs[0].amount - amount == 0.0)
            && AtLeastEps(Advance(ds, amount)) && AtLeastEps(Advance(cs, amount))
  {
    var amount := Min(ds[0].amount, cs[0].amount);
    AdvanceAtLeastEps(ds, amount);
    AdvanceAtLeastEps(cs, amount);
  }

  lemma AdvanceAtLeastEps(s: seq<Entry>, amount: real)
    requires s != [] && AtLeastEps(s)
    ensures AtLeastEps(Advance(s, amount))
  {
    var r := Advance(s, amount);
    if s[0].amount - amount >= Eps {
      forall k | 0 <= k < |r| ensures r[k].amount >= Eps {
        if k > 0 {
          assert r[k] == s[k];
        }
      }
    } else {
      forall k | 0 <= k < |r| ensures r[k].amount >= Eps {
        assert r[k] == s[k + 1];
      }
    }
  }

  /** Every transfer is at least Eps, hence strictly positive. */
  lemma {:induction false} PlanAmountsPositive(ds: seq<Entry>, cs: seq<Entry>)
    requires AtLeastEps(ds) && AtLeastEps(cs)
    ensures forall k :: 0 <= k < |Plan(ds, cs)| ==> Plan(ds, cs)[k].amount >= Eps
    decreases |ds| + |cs|
  {
    if ds != [] && cs != [] {
      var amount := Min(ds[0].amount, cs[0].amount);
      StepSound(ds, cs);
      PlanAmountsPositive(Advance(ds, amount), Advance(cs, amount));
    }
  }

  /** The loop runs fewer times than there are records in both lists. */
  lemma {:induction false} PlanLength(ds: seq<Entry>, cs: seq<Entry>)
    ensures |Plan(ds, cs)| <= |ds| + |cs|
    ensures ds != [] && cs != [] ==> |Plan(ds, cs)| < |ds| + |cs|
    decreases |ds| + |cs|
  {
    if ds != [] && cs != [] {
      var amount := Min(ds[0].amount, cs[0].amount);
      PlanLength(Advance(ds, amount), Advance(cs, amount));
    }
  }

  lemma AdvanceIds(s: seq<Entry>, amount: real)
    requires s != []
    ensures Ids(Advance(s, amount)) <= Ids(s)
  {
    var r := Advance(s, amount);
    forall id | id in Ids(r) ensures id in Ids(s) {
      var x :| x in r && x.personId == id;
      var k :| 0 <= k < |r| && r[k] == x;
      if s[0].amount - amount < Eps {
        assert r[k] == s[k + 1];
      } else if k > 0 {
        assert r[k] == s[k];
      } else {
        assert s[0].personId == id;
      }
    }
  }

  /** Every step pays from a debtor in the list to a creditor in the list. */
  lemma {:induction false} PlanParties(ds: seq<Entry>, cs: seq<Entry>)
    ensures forall k :: 0 <= k < |Plan(ds, cs)| ==>
              Plan(ds, cs)[k].debtor in Ids(ds) && Plan(ds, cs)[k].creditor in Ids(cs)
    decreases |ds| + |cs|
  {
    if ds != [] && cs != [] {
      var amount := Min(ds[0].amount, cs[0].amount);
      var ds', cs' := Advance(ds, amount), Advance(cs, amount);
      PlanParties(ds', cs');
      AdvanceIds(ds, amount);
      AdvanceIds(cs, amount);
      assert ds[0] in ds && cs[0] in cs;
      var p := Plan(ds, cs);
      forall k | 0 <= k < |p| ensures p[k].debtor in Ids(ds) && p[k].creditor in Ids(cs) {
        if k > 0 {
          assert p[k] == Plan(ds', cs')[k - 1];
        }
      }
    }
  }

  /** The sum of the amounts of a list of records. */
  function Total(s: seq<Entry>): real
  {
    if s == [] then 0.0 else s[0].amount + Total(s[1..])
  }

  /** The sum of what a list of steps transfers. */
  function Paid(steps: seq<Step>): real
  {
    if steps == [] then 0.0 else steps[0].amount + Paid(steps[1..])
  }

  lemma AdvanceTotal(s: seq<Entry>, amount: real)
    requires s != []
    ensures Total(Advance(s, amount))
            == if s[0].amount - amount < Eps then Total(s) - s[0].amount else Total(s) - amount
  {
    var left := s[0].amount - amount;
    if left >= Eps {
      assert ([s[0].(amount := left)] + s[1..])[1..] == s[1..];
    }
  }

  lemma PaidUnfold(ds: seq<Entry>, cs: seq<Entry>)
    requires ds != [] && cs != []
    ensures var amount := Min(ds[0].amount, cs[0].amount);
            Paid(Plan(ds, cs)) == amount + Paid(Plan(Advance(ds, amount), Advance(cs, amount)))
  {
    var amount := Min(ds[0].amount, cs[0].amount);
    var p := Plan(ds, cs);
    assert p[1..] == Plan(Advance(ds, amount), Advance(cs, amount));
  }

  lemma {:induction false} TotalNonNegative(s: seq<Entry>)
    requires AtLeastEps(s)
    ensures Total(s) >= 0.0
    decreases |s|
  {
    if s != [] {
      TotalNonNegative(s[1..]);
    }
  }

  /** Nobody pays more than the debtors owe in total, and nobody receives
      more than the creditors are owed in total. */
  lemma {:induction false} PlanPaysNoMore(ds: seq<Entry>, cs: seq<Entry>)
    requires AtLeastEps(ds) && AtLeastEps(cs)
    ensures Paid(Plan(ds, cs)) <= Total(ds)
    ensures Paid(Plan(ds, cs)) <= Total(cs)
    decreases |ds| + |cs|
  {
    TotalNonNegative(ds);
    TotalNonNegative(cs);
    if ds != [] && cs != [] {
      var amount := Min(ds[0].amount, cs[0].amount);
      StepSound(ds, cs);
      PlanPaysNoMore(Advance(ds, amount), Advance(cs, amount));
      PaidUnfold(ds, cs);
      AdvanceTotal(ds, amount);
      AdvanceTotal(cs, amount);
    }
  }

  /** When the loop stops, one of the two lists has been paid off up to less
      than Eps per record. */
  lemma {:induction false} PlanNearlyExhausts(ds: seq<Entry>, cs: seq<Entry>)
    ensures || Paid(Plan(ds, cs)) >= Total(ds) - Eps * (|ds| as real)
            || Paid(Plan(ds, cs)) >= Total(cs) - Eps * (|cs| as real)
    decreases |ds| + |cs|
  {
    if ds != [] && cs != [] {
      var amount := Min(ds[0].amount, cs[0].amount);
      PlanNearlyExhausts(Advance(ds, amount), Advance(cs, amount));
      PaidUnfold(ds, cs);
      AdvanceTotal(ds, amount);
      AdvanceTotal(cs, amount);
    }
  }

  // ---------------------------------------------------------------------
  // Properties of calculateSettlements as a whole.

  /** Sorting keeps the records, hence their ids and their lower bound. */
  lemma SortDescKeeps(s: seq<Entry>)
    ensures Ids(SortDesc(s)) == Ids(s)
    ensures AtLeastEps(s) ==> AtLeastEps(SortDesc(s))
  {
    var r := SortDesc(s);
    SortDescPermutes(s);
    forall x ensures x in r <==> x in s {
      assert x in r <==> x in multiset(r);
      assert x in s <==> x in multiset(s);
    }
    if AtLeastEps(s) {
      forall k | 0 <= k < |r| ensures r[k].amount >= Eps {
        assert r[k] in s;
      }
    }
  }

  /** The classified records hold more than Eps and name keys from `order`. */
  lemma ClassifyBounds(order: seq<Id>, b: map<Id, real>)
    requires forall id :: id in order ==> id in b
    ensures AtLeastEps(Classify(order, b).0) && AtLeastEps(Classify(order, b).1)
    ensures forall id :: id in Ids(Classify(order, b).0) ==> id in order
    ensures forall id :: id in Ids(Classify(order, b).1) ==> id in order
  {
    var lists := Classify(order, b);
    forall k | 0 <= k < |lists.0| ensures lists.0[k].amount >= Eps {
      ClassifyMembers(order, b, lists.0[k]);
    }
    forall k | 0 <= k < |lists.1| ensures lists.1[k].amount >= Eps {
      ClassifyMembers(order, b, lists.1[k]);
    }
    forall id | id in Ids(lists.0) ensures id in order {
      var x :| x in lists.0 && x.personId == id;
      ClassifyMembers(order, b, x);
    }
    forall id | id in Ids(lists.1) ensures id in order {
      var x :| x in lists.1 && x.personId == id;
      ClassifyMembers(order, b, x);
    }
  }

  /** When every step names known people, each step becomes exactly one
      settlement, by name, with the step's amount. */
  lemma {:induction false} EmitAllResolve(people: seq<Person>, steps: seq<Step>)
    requires forall k :: 0 <= k < |steps| ==>
               steps[k].debtor in IdSet(people) && steps[k].creditor in IdSet(people)
    ensures |Emit(people, steps)| == |steps|
    ensures forall k :: 0 <= k < |steps| ==>
              && Emit(people, steps)[k].amount == steps[k].amount
              && Emit(people, steps)[k].from == FindPerson(people, steps[k].debtor).value.name
              && Emit(people, steps)[k].to == FindPerson(people, steps[k].creditor).value.name
    decreases |steps|
  {
    if steps != [] {
      EmitAllResolve(people, steps[1..]);
      var r := Emit(people, steps);
      EmitOneResolves(people, steps[0]);
      forall k | 0 <= k < |steps|
        ensures && r[k].amount == steps[k].amount
                && r[k].from == FindPerson(people, steps[k].debtor).value.name
                && r[k].to == FindPerson(people, steps[k].creditor).value.name
      {
        if k > 0 {
          assert r[k] == Emit(people, steps[1..])[k - 1];
          assert steps[k] == steps[1..][k - 1];
        }
      }
    }
  }

  lemma EmitOneResolves(people: seq<Person>, step: Step)
    requires step.debtor in IdSet(people) && step.creditor in IdSet(people)
    ensures EmitOne(people, step)
            == [Settlement(FindPerson(people, step.debtor).value.name,
                           FindPerson(people, step.creditor).value.name, step.amount)]
  {
  }

  /** The debtor and creditor lists as `calculateSettlements` sorts them. */
  function SortedLists(people: seq<Person>, es: seq<Expense>): (seq<Entry>, seq<Entry>)
    requires Resolved(people, es)
  {
    var lists := Classify(KeyOrder(people), Balances(people, es));
    (SortDesc(lists.0), SortDesc(lists.1))
  }

  /** The settlements of a ledger: one per step of the greedy loop, each
      paying at least Eps from a person whose balance is below -Eps to a
      person whose balance is above Eps, and fewer than there are debtors and
      creditors together. */
  lemma SettlementsSound(people: seq<Person>, es: seq<Expense>)
    requires Resolved(people, es)
    ensures var lists := SortedLists(people, es);
            var steps := Plan(lists.0, lists.1);
            && SettlementsOf(people, es) == Emit(people, steps)
            && |SettlementsOf(people, es)| == |steps|
            && |steps| <= |lists.0| + |lists.1|
            && forall k :: 0 <= k < |steps| ==>
                 && SettlementsOf(people, es)[k].amount == steps[k].amount >= Eps
                 && steps[k].debtor in IdSet(people) && steps[k].creditor in IdSet(people)
                 && Balances(people, es)[steps[k].debtor] < -Eps
                 && Balances(people, es)[steps[k].creditor] > Eps
  {
    var order, b := KeyOrder(people), Balances(people, es);
    var raw := Classify(order, b);
    var lists := SortedLists(people, es);
    var steps := Plan(lists.0, lists.1);
    ClassifyBounds(order, b);
    SortDescKeeps(raw.0);
    SortDescKeeps(raw.1);
    PlanAmountsPositive(lists.0, lists.1);
    PlanParties(lists.0, lists.1);
    PlanLength(lists.0, lists.1);
    forall k | 0 <= k < |steps|
      ensures steps[k].debtor in IdSet(people) && steps[k].creditor in IdSet(people)
      ensures b[steps[k].debtor] < -Eps && b[steps[k].creditor] > Eps
    {
      var x :| x in raw.0 && x.personId == steps[k].debtor;
      var y :| y in raw.1 && y.personId == steps[k].creditor;
      ClassifyMembers(order, b, x);
      ClassifyMembers(order, b, y);
    }
    EmitAllResolve(people, steps);
  }

  /** When every balance is within the tolerance there is nothing to settle. */
  lemma AllSettled(people: seq<Person>, es: seq<Expense>)
    requires Resolved(people, es)
    requires forall id :: id in IdSet(people) ==> -Eps <= Balances(people, es)[id] <= Eps
    ensures SettlementsOf(people, es) == []
  {
    var order, b := KeyOrder(people), Balances(people, es);
    var raw := Classify(order, b);
    if raw.0 != [] {
      ClassifyMembers(order, b, raw.0[0]);
      assert false;
    }
  }

  /** A ledger with at least one debtor and one creditor beyond the
      tolerance gets at least one settlement. */
  lemma SomeoneSettles(people: seq<Person>, es: seq<Expense>, d: Id, c: Id)
    requires Resolved(people, es)
    requires d in IdSet(people) && c in IdSet(people)
    requires Balances(people, es)[d] < -Eps && Balances(people, es)[c] > Eps
    ensures |SettlementsOf(people, es)| >= 1
  {
    var order, b := KeyOrder(people), Balances(people, es);
    var raw := Classify(order, b);
    ClassifySound(order, b, d);
    ClassifySound(order, b, c);
    assert Entry(d, -b[d]) in raw.0 && Entry(c, b[c]) in raw.1;
    SortDescKeeps(raw.0);
    SortDescKeeps(raw.1);
    var lists := SortedLists(people, es);
    assert d in Ids(lists.0) && c in Ids(lists.1);
    SettlementsSound(people, es);
  }

  /** A ledger with no expenses has no settlements. */
  lemma NoExpensesNoSettlements(people: seq<Person>)
    ensures SettlementsOf(people, []) == []
  {
    forall id | id in IdSet(people) ensures Balances(people, [])[id] == 0.0 {
      UninvolvedIsZero(people, [], id);
    }
    AllSettled(people, []);
  }
}
