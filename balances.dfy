/** The balance calculator: every person starts at zero; each counted expense
    credits its payer the full amount and debits every participant an equal
    share. A balance dictionary is a map together with the order in which its
    keys were first inserted, which is the order JavaScript lists them in. */
module BalanceCalculator {
  import opened Records

  /** The keys of the balance dictionary in insertion order: each person's id
      at its first occurrence in `people`. */
  function KeyOrder(people: seq<Person>): (order: seq<Id>)
    ensures Distinct(order)
    ensures forall id :: id in order <==> id in IdSet(people)
    decreases |people|
  {
    if people == [] then []
    else
      var prev := KeyOrder(people[..|people| - 1]);
      var id := people[|people| - 1].id;
      assert people == people[..|people| - 1] + [people[|people| - 1]];
      assert IdSet(people) == IdSet(people[..|people| - 1]) + {id};
      if id in prev then prev else prev + [id]
  }

  /** `people[k]` is the first person with id `id`. */
  predicate FirstSeen(people: seq<Person>, id: Id, k: int)
  {
    0 <= k < |people| && people[k].id == id && forall m :: 0 <= m < k ==> people[m].id != id
  }

  /** The keys are listed in the order in which each id first occurs among
      the people, as the insertions `balances[person.id] = 0` make them. */
  lemma {:induction false} KeyOrderFirstSeen(people: seq<Person>)
    ensures forall i, j, ki, kj ::
              && 0 <= i < j < |KeyOrder(people)|
              && FirstSeen(people, KeyOrder(people)[i], ki)
              && FirstSeen(people, KeyOrder(people)[j], kj)
              ==> ki < kj
    decreases |people|
  {
    if people != [] {
      var n := |people|;
      var init, last := people[..n - 1], people[n - 1];
      var prev, order := KeyOrder(init), KeyOrder(people);
      KeyOrderFirstSeen(init);
      forall i, j, ki, kj | && 0 <= i < j < |order|
                            && FirstSeen(people, order[i], ki) && FirstSeen(people, order[j], kj)
        ensures ki < kj
      {
        assert order[i] == prev[i];
        FirstSeenBefore(people, prev[i], ki);
        if j < |prev| {
          assert order[j] == prev[j];
          FirstSeenBefore(people, prev[j], kj);
        } else {
          assert order[j] == last.id && last.id !in prev;
          assert forall m :: 0 <= m < n - 1 ==> people[m] == init[m] && init[m] in init;
        }
      }
    }
  }

  /** An id that occurs before the last person is first seen there too. */
  lemma FirstSeenBefore(people: seq<Person>, id: Id, k: int)
    requires people != [] && FirstSeen(people, id, k)
    requires id in IdSet(people[..|people| - 1])
    ensures k < |people| - 1 && FirstSeen(people[..|people| - 1], id, k)
  {
    var init := people[..|people| - 1];
    var p :| p in init && p.id == id;
    var t :| 0 <= t < |init| && init[t] == p;
    assert people[t].id == id;
  }

  /** Every known person starts at balance 0. */
  function ZeroBalances(people: seq<Person>): (b: map<Id, real>)
    ensures b.Keys == IdSet(people)
    ensures forall id :: id in b ==> b[id] == 0.0
    decreases |people|
  {
    if people == [] then map[]
    else
      var last := people[|people| - 1];
      assert people == people[..|people| - 1] + [last];
      assert IdSet(people) == IdSet(people[..|people| - 1]) + {last.id};
      ZeroBalances(people[..|people| - 1])[last.id := 0.0]
  }

  /** Subtracts `share` from the balance of each id in `ids`, one by one. */
  function Debit(b: map<Id, real>, ids: seq<Id>, share: real): (r: map<Id, real>)
    requires forall id :: id in ids ==> id in b
    ensures r.Keys == b.Keys
    decreases |ids|
  {
    if ids == [] then b
    else Debit(b[ids[0] := b[ids[0]] - share], ids[1..], share)
  }

  /** The equal part of `amount` each of `n` participants owes. */
  function Share(amount: real, n: nat): real
    requires n > 0
  {
    amount / (n as real)
  }

  /** The payer is credited `amount`, then each participant is debited an
      equal share. */
  function Split(b: map<Id, real>, payer: Id, amount: real, ids: seq<Id>): map<Id, real>
    requires payer in b && |ids| > 0 && forall id :: id in ids ==> id in b
  {
    Debit(b[payer := b[payer] + amount], ids, Share(amount, |ids|))
  }

  /** One iteration of the expense loop. */
  function ApplyExpense(b: map<Id, real>, e: Expense): (r: map<Id, real>)
    requires Covered(b.Keys, e)
    ensures r.Keys == b.Keys
  {
    if !Counts(e) then b
    else Split(b, e.paidBy.value, e.amount, e.splitBetween)
  }

  /** The expense loop, first expense first. */
  function ApplyAll(b: map<Id, real>, es: seq<Expense>): (r: map<Id, real>)
    requires forall e :: e in es ==> Covered(b.Keys, e)
    ensures r.Keys == b.Keys
    decreases |es|
  {
    if es == [] then b
    else ApplyAll(ApplyExpense(b, es[0]), es[1..])
  }

  /** The balance dictionary `calculateBalances` returns. */
  function Balances(people: seq<Person>, es: seq<Expense>): (b: map<Id, real>)
    requires Resolved(people, es)
    ensures b.Keys == IdSet(people)
  {
    ApplyAll(ZeroBalances(people), es)
  }

  /** `calculateBalances`: the balance dictionary and its key order. */
  method CalculateBalances(people: seq<Person>, expenses: seq<Expense>)
    returns (balances: map<Id, real>, order: seq<Id>)
    requires Resolved(people, expenses)
    ensures balances == Balances(people, expenses)
    ensures order == KeyOrder(people)
  {
    balances, order := StartAtZero(people);
    balances := AddExpenses(balances, expenses);
  }

  /** The first loop of `calculateBalances`: one zero entry per person,
      keys inserted in the order people are listed. */
  method StartAtZero(people: seq<Person>) returns (balances: map<Id, real>, order: seq<Id>)
    ensures balances == ZeroBalances(people)
    ensures order == KeyOrder(people)
  {
    balances, order := map[], [];
    for k := 0 to |people|
      invariant balances == ZeroBalances(people[..k])
      invariant order == KeyOrder(people[..k])
    {
      var id := people[k].id;
      KeyOrderStep(people, k);
      if id !in balances {
        order := order + [id];
      }
      balances := balances[id := 0.0];
    }
    assert people[..|people|] == people;
  }

  /** The second loop of `calculateBalances`: credit each payer, debit each
      participant. */
  method AddExpenses(start: map<Id, real>, expenses: seq<Expense>) returns (balances: map<Id, real>)
    requires forall e :: e in expenses ==> Covered(start.Keys, e)
    ensures balances == ApplyAll(start, expenses)
  {
    balances := start;
    for k := 0 to |expenses|
      invariant balances.Keys == start.Keys
      invariant ApplyAll(balances, expenses[k..]) == ApplyAll(start, expenses)
    {
      assert expenses[k] in expenses;
      assert expenses[k..][1..] == expenses[k + 1..];
      balances := AddExpense(balances, expenses[k]);
    }
  }

  /** One pass of the expense loop: the guard, the credit and the inner
      loop over the participants. */
  method AddExpense(b: map<Id, real>, e: Expense) returns (balances: map<Id, real>)
    requires Covered(b.Keys, e)
    ensures balances == ApplyExpense(b, e)
  {
    balances := b;
    if e.paidBy.Some? && e.paidBy.value != "" && |e.splitBetween| > 0 {
      var share := Share(e.amount, |e.splitBetween|);
      balances := balances[e.paidBy.value := balances[e.paidBy.value] + e.amount];
      ghost var credited := balances;
      assert e.splitBetween[0..] == e.splitBetween;
      for m := 0 to |e.splitBetween|
        invariant balances.Keys == b.Keys
        invariant Debit(credited, e.splitBetween, share) == Debit(balances, e.splitBetween[m..], share)
      {
        var id := e.splitBetween[m];
        DebitStep(balances, e.splitBetween, m, share);
        balances := balances[id := balances[id] - share];
      }
      assert e.splitBetween[|e.splitBetween|..] == [];
    }
  }

  lemma KeyOrderStep(people: seq<Person>, k: nat)
    requires k < |people|
    ensures ZeroBalances(people[..k + 1]) == ZeroBalances(people[..k])[people[k].id := 0.0]
    ensures KeyOrder(people[..k + 1])
            == if people[k].id in ZeroBalances(people[..k]) then KeyOrder(people[..k])
               else KeyOrder(people[..k]) + [people[k].id]
  {
    assert people[..k + 1][..k] == people[..k];
  }

  lemma DebitStep(b: map<Id, real>, ids: seq<Id>, m: nat, share: real)
    requires m < |ids|
    requires forall id :: id in ids ==> id in b
    ensures Debit(b, ids[m..], share) == Debit(b[ids[m] := b[ids[m]] - share], ids[m + 1..], share)
  {
    assert ids[m..][1..] == ids[m + 1..];
  }

  // ---------------------------------------------------------------------
  // A closed form for each person's balance.

  /** The shares that participants listed in `ids` owe, as seen by `id`:
      one `share` for every time `id` is listed. */
  function Owed(ids: seq<Id>, id: Id, share: real): real
  {
    if ids == [] then 0.0 else (if ids[0] == id then share else 0.0) + Owed(ids[1..], id, share)
  }

  /** What one expense adds to the balance of `id`: the amount when `id`
      paid, minus one share for every time `id` is listed as a participant. */
  function Contribution(e: Expense, id: Id): real
  {
    if !Counts(e) then 0.0
    else
      (if e.paidBy.value == id then e.amount else 0.0)
      - Owed(e.splitBetween, id, Share(e.amount, |e.splitBetween|))
  }

  /** What a list of expenses adds to the balance of `id`. */
  function Net(es: seq<Expense>, id: Id): real
  {
    if es == [] then 0.0 else Contribution(es[0], id) + Net(es[1..], id)
  }

  lemma {:induction false} DebitAt(b: map<Id, real>, ids: seq<Id>, share: real, id: Id)
    requires forall x :: x in ids ==> x in b
    requires id in b
    ensures Debit(b, ids, share)[id] == b[id] - Owed(ids, id, share)
    decreases |ids|
  {
    if ids != [] {
      var b' := b[ids[0] := b[ids[0]] - share];
      DebitAt(b', ids[1..], share, id);
    }
  }

  lemma {:induction false} ApplyAllAt(b: map<Id, real>, es: seq<Expense>, id: Id)
    requires forall e :: e in es ==> Covered(b.Keys, e)
    requires id in b
    ensures ApplyAll(b, es)[id] == b[id] + Net(es, id)
    decreases |es|
  {
    if es != [] {
      var e := es[0];
      var b' := ApplyExpense(b, e);
      ApplyAllAt(b', es[1..], id);
      if Counts(e) {
        var payer := e.paidBy.value;
        var share := Share(e.amount, |e.splitBetween|);
        DebitAt(b[payer := b[payer] + e.amount], e.splitBetween, share, id);
      }
    }
  }

  /** Each person's computed balance is what they paid minus the shares they
      owe, over the counted expenses. */
  lemma BalanceIsNet(people: seq<Person>, es: seq<Expense>, id: Id)
    requires Resolved(people, es)
    requires id in IdSet(people)
    ensures Balances(people, es)[id] == Net(es, id)
  {
    ApplyAllAt(ZeroBalances(people), es, id);
  }

  /** A person who pays for and shares in no counted expense ends at 0. */
  lemma {:induction false} UninvolvedIsZero(people: seq<Person>, es: seq<Expense>, id: Id)
    requires Resolved(people, es)
    requires id in IdSet(people)
    requires forall e :: e in es && Counts(e) ==> e.paidBy.value != id && id !in e.splitBetween
    ensures Balances(people, es)[id] == 0.0
  {
    BalanceIsNet(people, es, id);
    NetUninvolved(es, id);
  }

  lemma {:induction false} OwedAbsent(ids: seq<Id>, id: Id, share: real)
    requires id !in ids
    ensures Owed(ids, id, share) == 0.0
    decreases |ids|
  {
    if ids != [] {
      OwedAbsent(ids[1..], id, share);
    }
  }

  lemma {:induction false} NetUninvolved(es: seq<Expense>, id: Id)
    requires forall e :: e in es && Counts(e) ==> e.paidBy.value != id && id !in e.splitBetween
    ensures Net(es, id) == 0.0
    decreases |es|
  {
    if es != [] {
      assert es[0] in es;
      if Counts(es[0]) {
        OwedAbsent(es[0].splitBetween, id, Share(es[0].amount, |es[0].splitBetween|));
      }
      NetUninvolved(es[1..], id);
    }
  }

  // ---------------------------------------------------------------------
  // Skipped expenses.

  /** The expenses that pass the guard. */
  function CountedOnly(es: seq<Expense>): (r: seq<Expense>)
    ensures forall e :: e in r <==> e in es && Counts(e)
  {
    if es == [] then []
    else (if Counts(es[0]) then [es[0]] else []) + CountedOnly(es[1..])
  }

  lemma {:induction false} ApplyAllCountedOnly(b: map<Id, real>, es: seq<Expense>)
    requires forall e :: e in es ==> Covered(b.Keys, e)
    ensures ApplyAll(b, es) == ApplyAll(b, CountedOnly(es))
    decreases |es|
  {
    if es != [] {
      ApplyAllCountedOnly(ApplyExpense(b, es[0]), es[1..]);
      if Counts(es[0]) {
        assert CountedOnly(es) == [es[0]] + CountedOnly(es[1..]);
        assert CountedOnly(es)[1..] == CountedOnly(es[1..]);
      } else {
        assert CountedOnly(es) == CountedOnly(es[1..]);
      }
    }
  }

  /** An expense without a payer or without participants changes no
      balance: dropping all of them gives the same dictionary. */
  lemma SkippedChangeNothing(people: seq<Person>, es: seq<Expense>)
    requires Resolved(people, es)
    ensures Resolved(people, CountedOnly(es))
    ensures Balances(people, es) == Balances(people, CountedOnly(es))
  {
    ApplyAllCountedOnly(ZeroBalances(people), es);
  }

  // ---------------------------------------------------------------------
  // Zero sum.

  /** The sum of the balances of `ids`, in order. */
  function SumOver(b: map<Id, real>, ids: seq<Id>): real
    requires forall id :: id in ids ==> id in b
  {
    if ids == [] then 0.0 else b[ids[0]] + SumOver(b, ids[1..])
  }

  lemma {:induction false} SumUpdate(b: map<Id, real>, ids: seq<Id>, k: Id, d: real)
    requires Distinct(ids)
    requires forall id :: id in ids ==> id in b
    requires k in b
    ensures SumOver(b[k := b[k] + d], ids) == SumOver(b, ids) + (if k in ids then d else 0.0)
    decreases |ids|
  {
    if ids != [] {
      assert Distinct(ids[1..]) by {
        forall i, j | 0 <= i < j < |ids[1..]| ensures ids[1..][i] != ids[1..][j] {
          assert ids[1..][i] == ids[i + 1] && ids[1..][j] == ids[j + 1];
        }
      }
      SumUpdate(b, ids[1..], k, d);
      if ids[0] == k {
        assert k !in ids[1..] by {
          forall i | 0 <= i < |ids[1..]| ensures ids[1..][i] != k {
            assert ids[1..][i] == ids[i + 1];
          }
        }
      } else {
        assert k in ids <==> k in ids[1..] by {
          assert ids == [ids[0]] + ids[1..];
        }
      }
    }
  }

  /** `x` added `n` times. */
  function Times(n: nat, x: real): real
  {
    if n == 0 then 0.0 else x + Times(n - 1, x)
  }

  lemma {:induction false} TimesIsProduct(n: nat, x: real)
    ensures Times(n, x) == (n as real) * x
  {
    if n > 0 {
      TimesIsProduct(n - 1, x);
      assert (n as real) * x == ((n - 1) as real) * x + x;
    }
  }

  /** `n` equal shares of `amount / n` add up to `amount`. */
  lemma SharesAddUp(amount: real, n: nat)
    requires n > 0
    ensures Times(n, Share(amount, n)) == amount
  {
    TimesIsProduct(n, Share(amount, n));
  }

  lemma {:induction false} DebitSum(b: map<Id, real>, ids: seq<Id>, share: real, order: seq<Id>)
    requires Distinct(order)
    requires forall id :: id in order ==> id in b
    requires forall id :: id in ids ==> id in order
    ensures forall id :: id in ids ==> id in b
    ensures SumOver(Debit(b, ids, share), order) == SumOver(b, order) - Times(|ids|, share)
    decreases |ids|
  {
    if ids != [] {
      var b' := b[ids[0] := b[ids[0]] + -share];
      SumUpdate(b, order, ids[0], -share);
      assert b[ids[0] := b[ids[0]] - share] == b';
      DebitSum(b', ids[1..], share, order);
    }
  }

  lemma ExpenseSum(b: map<Id, real>, e: Expense, order: seq<Id>)
    requires Distinct(order)
    requires forall id :: id in order <==> id in b
    requires Covered(b.Keys, e)
    ensures SumOver(ApplyExpense(b, e), order) == SumOver(b, order)
  {
    if Counts(e) {
      SplitSum(b, e.paidBy.value, e.amount, e.splitBetween, order);
    }
  }

  /** Crediting `amount` and debiting it again in equal shares leaves the sum. */
  lemma SplitSum(b: map<Id, real>, payer: Id, amount: real, ids: seq<Id>, order: seq<Id>)
    requires Distinct(order)
    requires forall id :: id in order <==> id in b
    requires payer in b && |ids| > 0 && forall id :: id in ids ==> id in b
    ensures SumOver(Split(b, payer, amount, ids), order) == SumOver(b, order)
  {
    var share := Share(amount, |ids|);
    SharesAddUp(amount, |ids|);
    assert payer in order;
    SumUpdate(b, order, payer, amount);
    DebitSum(b[payer := b[payer] + amount], ids, share, order);
  }

  lemma {:induction false} ApplyAllSum(b: map<Id, real>, es: seq<Expense>, order: seq<Id>)
    requires Distinct(order)
    requires forall id :: id in order <==> id in b
    requires forall e :: e in es ==> Covered(b.Keys, e)
    ensures SumOver(ApplyAll(b, es), order) == SumOver(b, order)
    decreases |es|
  {
    if es != [] {
      ExpenseSum(b, es[0], order);
      ApplyAllSum(ApplyExpense(b, es[0]), es[1..], order);
    }
  }

  lemma {:induction false} SumOfZeros(b: map<Id, real>, ids: seq<Id>)
    requires forall id :: id in ids ==> id in b && b[id] == 0.0
    ensures SumOver(b, ids) == 0.0
    decreases |ids|
  {
    if ids != [] {
      SumOfZeros(b, ids[1..]);
    }
  }

  /** When every counted expense names only known people, the balances
      sum to exactly zero. */
  lemma ZeroSum(people: seq<Person>, es: seq<Expense>)
    requires Resolved(people, es)
    ensures SumOver(Balances(people, es), KeyOrder(people)) == 0.0
  {
    var order := KeyOrder(people);
    SumOfZeros(ZeroBalances(people), order);
    ApplyAllSum(ZeroBalances(people), es, order);
  }
}
