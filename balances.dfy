/** The balance and settlement computation of the balances summary (`calculateBalances` in
    src/components/BalancesSummary.tsx) and the three summary figures shown above it.

    The computation has two stages. Aggregation credits each payer with the full amount of
    an expense and debits every entry of its split an equal share. Settlement then walks the
    debtors in roster order and, for each, walks the creditors once, paying the smaller of
    what the debtor still owes and what the creditor is still owed. The creditor's balance
    field is decremented in place, so a creditor who has been paid in full ends at 0. */
module Balances {
  import opened Seqs
  import opened TripData

  /** The tolerance below which a balance or a remaining debt counts as zero. */
  const Epsilon: real := 0.01

  datatype Debt = Debt(to: Person, amount: real)
  datatype Credit = Credit(from: Person, amount: real)

  /** One row of the result: a person, their balance field, and the payments they make
      (`owes`) and receive (`owedBy`). */
  datatype Balance = Balance(person: Person, balance: real, owes: seq<Debt>, owedBy: seq<Credit>)

  /** A suggested payment, as the debtor's `owes` entry and the creditor's `owedBy` entry
      record it. */
  datatype Edge = Edge(debtor: Person, creditor: Person, amount: real)

  function Min(a: real, b: real): (m: real)
    ensures m <= a && m <= b && (m == a || m == b)
  {
    if a <= b then a else b
  }

  function Abs(x: real): (y: real)
    ensures y >= 0.0 && (y == x || y == -x)
  {
    if x < 0.0 then -x else x
  }

  // ---------------------------------------------------------------------------------------
  // Aggregation

  /** Every split is non-empty. The expense form refuses to submit an empty split, but the
      Supabase-backed dashboard builds one for a trip without participants. */
  predicate ValidSplits(es: seq<Expense>) {
    forall e | e in es :: |e.splitBetween| > 0
  }

  /** `expenses.map(e => e.paidBy)`. */
  function Payers(es: seq<Expense>): (r: seq<Person>)
    ensures |r| == |es| && forall k | 0 <= k < |es| :: r[k] == es[k].paidBy
  {
    if es == [] then [] else [es[0].paidBy] + Payers(es[1..])
  }

  /** `expenses.flatMap(e => e.splitBetween)`. */
  function SplitMembers(es: seq<Expense>): (r: seq<Person>)
    ensures forall e, x | e in es && x in e.splitBetween :: x in r
    ensures forall x | x in r :: exists e | e in es :: x in e.splitBetween
  {
    if es == [] then [] else es[0].splitBetween + SplitMembers(es[1..])
  }

  /** The roster holds every payer and every split member. */
  ghost predicate Covers(roster: seq<Person>, es: seq<Expense>) {
    forall e | e in es :: e.paidBy in roster && forall x | x in e.splitBetween :: x in roster
  }

  /** `new Set([...participants, ...payers, ...splitMembers])` in iteration order: each person
      once, in order of first appearance. */
  function Roster(participants: seq<Person>, es: seq<Expense>): (r: seq<Person>)
    ensures NoDup(r)
    ensures Covers(r, es)
    ensures forall p | p in participants :: p in r
    ensures forall p | p in r ::
              p in participants || exists e | e in es :: p == e.paidBy || p in e.splitBetween
  {
    var all := participants + Payers(es) + SplitMembers(es);
    assert forall e | e in es :: e.paidBy in Payers(es) by {
      forall e | e in es ensures e.paidBy in Payers(es) {
        var k :| 0 <= k < |es| && es[k] == e;
        assert Payers(es)[k] == e.paidBy;
      }
    }
    Dedup(all)
  }

  /** The equal share of one split entry: `amount / splitBetween.length`. */
  function Share(e: Expense): real
    requires |e.splitBetween| > 0
  {
    e.amount / |e.splitBetween| as real
  }

  /** What the split entries debit person `p`: one `share` per entry that is `p`. */
  function Debits(split: seq<Person>, p: Person, share: real): real {
    if split == [] then 0.0
    else Debits(split[..|split| - 1], p, share) + (if split[|split| - 1] == p then share else 0.0)
  }

  /** A split without `p` does not debit `p`. */
  lemma {:induction false} DebitsNone(split: seq<Person>, p: Person, share: real)
    ensures p !in split ==> Debits(split, p, share) == 0.0
  {
    if split != [] {
      DebitsNone(split[..|split| - 1], p, share);
      assert split[..|split| - 1] <= split;
    }
  }

  /** What one expense does to one person's balance: the payer is credited the amount, and
      the person is debited one share per occurrence in the split. An empty split debits
      nobody (its share, a division by zero, is never read). */
  function Delta(e: Expense, p: Person): (r: real)
    ensures e.splitBetween == [] ==> r == (if e.paidBy == p then e.amount else 0.0)
    ensures e.paidBy != p && p !in e.splitBetween ==> r == 0.0
  {
    if e.splitBetween == [] then
      if e.paidBy == p then e.amount else 0.0
    else
      DebitsNone(e.splitBetween, p, Share(e));
      (if e.paidBy == p then e.amount else 0.0) - Debits(e.splitBetween, p, Share(e))
  }

  /** A person's balance after aggregating `es`, before settlement; zero for somebody who
      neither paid nor shared in any of them. */
  function Net(es: seq<Expense>, p: Person): (r: real)
    ensures (forall e | e in es :: e.paidBy != p && p !in e.splitBetween) ==> r == 0.0
  {
    if es == [] then 0.0
    else
      assert forall e | e in es[..|es| - 1] :: e in es;
      Net(es[..|es| - 1], p) + Delta(es[|es| - 1], p)
  }

  /** The balances after aggregation, keyed by person. */
  function PreBalances(roster: seq<Person>, es: seq<Expense>): (pre: map<Person, real>)
    ensures pre.Keys == set p | p in roster
    ensures forall p | p in pre :: pre[p] == Net(es, p)
  {
    map p | p in roster :: Net(es, p)
  }

  // ---------------------------------------------------------------------------------------
  // Settlement

  /** The creditor test `b.balance > 0.01` (when `creditor`) or the debtor test
      `b.balance < -0.01`. */
  predicate InGroup(x: real, creditor: bool) {
    if creditor then x > Epsilon else x < -Epsilon
  }

  /** `Object.values(balances).filter(...)`, represented by the persons of the kept rows. */
  function Group(values: seq<Balance>, creditor: bool): (g: seq<Person>)
    ensures forall p | p in g :: exists i | 0 <= i < |values| ::
              values[i].person == p && InGroup(values[i].balance, creditor)
    ensures forall i | 0 <= i < |values| && InGroup(values[i].balance, creditor) ::
              values[i].person in g
  {
    if values == [] then []
    else if InGroup(values[0].balance, creditor) then [values[0].person] + Group(values[1..], creditor)
    else Group(values[1..], creditor)
  }

  /** The rows right after aggregation, in roster order. */
  function InitialValues(roster: seq<Person>, pre: map<Person, real>): (values: seq<Balance>)
    requires forall p | p in roster :: p in pre
    ensures |values| == |roster|
  {
    seq(|roster|, i requires 0 <= i < |roster| => Balance(roster[i], pre[roster[i]], [], []))
  }

  function Creditors(roster: seq<Person>, pre: map<Person, real>): seq<Person>
    requires forall p | p in roster :: p in pre
  {
    Group(InitialValues(roster, pre), true)
  }

  function Debtors(roster: seq<Person>, pre: map<Person, real>): seq<Person>
    requires forall p | p in roster :: p in pre
  {
    Group(InitialValues(roster, pre), false)
  }

  /** Total paid to `c` by the edges in `es`. */
  function Received(es: seq<Edge>, c: Person): real {
    if es == [] then 0.0
    else Received(es[..|es| - 1], c) + (if es[|es| - 1].creditor == c then es[|es| - 1].amount else 0.0)
  }

  /** Total paid by `d` in the edges in `es`. */
  function Sent(es: seq<Edge>, d: Person): real {
    if es == [] then 0.0
    else Sent(es[..|es| - 1], d) + (if es[|es| - 1].debtor == d then es[|es| - 1].amount else 0.0)
  }

  /** The `owes` list of `d`: one entry per edge it pays, in emission order. */
  function OwesOf(es: seq<Edge>, d: Person): seq<Debt> {
    if es == [] then []
    else
      var last := es[|es| - 1];
      OwesOf(es[..|es| - 1], d) + (if last.debtor == d then [Debt(last.creditor, last.amount)] else [])
  }

  /** The `owedBy` list of `c`: one entry per edge it receives, in emission order. */
  function OwedByOf(es: seq<Edge>, c: Person): seq<Credit> {
    if es == [] then []
    else
      var last := es[|es| - 1];
      OwedByOf(es[..|es| - 1], c) + (if last.creditor == c then [Credit(last.debtor, last.amount)] else [])
  }

  /** Debtor `d`, with `remaining` still to pay, is offered creditor `c`; `done` are the edges
      emitted so far, and the creditor's working balance is its balance after aggregation less
      what it has already received. When both exceed the tolerance the debtor pays the smaller
      of the two. Returns the edges and what the debtor still owes afterwards. */
  function Offer(pre: map<Person, real>, done: seq<Edge>, d: Person, c: Person, remaining: real): (seq<Edge>, real)
    requires c in pre
  {
    var working := pre[c] - Received(done, c);
    if remaining > Epsilon && working > Epsilon then
      var payment := Min(remaining, working);
      (done + [Edge(d, c, payment)], remaining - payment)
    else
      (done, remaining)
  }

  /** Debtor `d` is offered creditors `cs[j..]` in order. Returns `done` extended with d's edges. */
  function Walk(pre: map<Person, real>, done: seq<Edge>, d: Person, cs: seq<Person>, j: nat, remaining: real): seq<Edge>
    requires j <= |cs| && forall c | c in cs :: c in pre
    decreases |cs| - j
  {
    if j == |cs| then done
    else
      var (done', remaining') := Offer(pre, done, d, cs[j], remaining);
      Walk(pre, done', d, cs, j + 1, remaining')
  }

  /** Debtor `d`'s turn: starting from `|balance|` at that moment, it walks all creditors. */
  function Turn(pre: map<Person, real>, done: seq<Edge>, d: Person, cs: seq<Person>): seq<Edge>
    requires d in pre && forall c | c in cs :: c in pre
  {
    Walk(pre, done, d, cs, 0, Abs(pre[d] - Received(done, d)))
  }

  /** The edges emitted once debtors `ds[..k]` have each walked the creditors, starting from
      `|balance|` at that moment. */
  function Planned(pre: map<Person, real>, ds: seq<Person>, cs: seq<Person>, k: nat): seq<Edge>
    requires k <= |ds|
    requires forall p | p in ds :: p in pre
    requires forall c | c in cs :: c in pre
  {
    if k == 0 then []
    else
      Turn(pre, Planned(pre, ds, cs, k - 1), ds[k - 1], cs)
  }

  /** Every edge settlement emits, in emission order (debtor-major, creditor-minor). */
  function Settlement(roster: seq<Person>, pre: map<Person, real>): seq<Edge>
    requires forall p | p in roster :: p in pre
  {
    var ds := Debtors(roster, pre);
    Planned(pre, ds, Creditors(roster, pre), |ds|)
  }

  /** What `calculateBalances` returns: one row per roster entry, in roster order, with the
      balance field after settlement and the `owes`/`owedBy` lists settlement produced. */
  function Report(expenses: seq<Expense>, participants: seq<Person>): (rows: seq<Balance>)
    ensures |rows| == |Roster(participants, expenses)|
  {
    var roster := Roster(participants, expenses);
    var pre := PreBalances(roster, expenses);
    var es := Settlement(roster, pre);
    seq(|roster|, i requires 0 <= i < |roster| =>
      var p := roster[i];
      Balance(p, pre[p] - Received(es, p), OwesOf(es, p), OwedByOf(es, p)))
  }

  /** The row of `p` after the edges `es` have been applied to the aggregated balances. */
  ghost predicate RowsMatch(balances: map<Person, Balance>, pre: map<Person, real>, es: seq<Edge>) {
    forall p | p in balances ::
      p in pre && balances[p] == Balance(p, pre[p] - Received(es, p), OwesOf(es, p), OwedByOf(es, p))
  }

  /** The creditor and debtor groups are exactly the roster entries passing their test. */
  lemma GroupMembers(roster: seq<Person>, pre: map<Person, real>, creditor: bool)
    requires forall p | p in roster :: p in pre
    ensures forall p :: p in Group(InitialValues(roster, pre), creditor) <==> p in roster && InGroup(pre[p], creditor)
  {
    var values := InitialValues(roster, pre);
    forall p ensures p in Group(values, creditor) <==> p in roster && InGroup(pre[p], creditor) {
      if p in roster {
        var i :| 0 <= i < |roster| && roster[i] == p;
        assert values[i].person == p;
      }
    }
  }

  /** Rows kept in step with the whole settlement are what `Report` describes. */
  lemma RowsAreReport(expenses: seq<Expense>, participants: seq<Person>, balances: map<Person, Balance>)
    requires var roster := Roster(participants, expenses);
             var pre := PreBalances(roster, expenses);
             (forall p | p in roster :: p in balances) && RowsMatch(balances, pre, Settlement(roster, pre))
    ensures var roster := Roster(participants, expenses);
            seq(|roster|, n requires 0 <= n < |roster| => balances[roster[n]]) == Report(expenses, participants)
  {
    var roster := Roster(participants, expenses);
    var rows := seq(|roster|, n requires 0 <= n < |roster| => balances[roster[n]]);
    var report := Report(expenses, participants);
    assert |rows| == |report|;
    forall n | 0 <= n < |roster| ensures rows[n] == report[n] {
    }
  }

  /** Recording one payment on both rows and decrementing the creditor keeps the rows in step
      with the emitted edges. */
  lemma RecordPayment(balances: map<Person, Balance>, pre: map<Person, real>, es: seq<Edge>,
                      d: Person, c: Person, x: real)
    requires RowsMatch(balances, pre, es) && d in balances && c in balances
    ensures var b1 := balances[d := balances[d].(owes := balances[d].owes + [Debt(c, x)])];
            var b2 := b1[c := b1[c].(owedBy := b1[c].owedBy + [Credit(d, x)])];
            var b3 := b2[c := b2[c].(balance := b2[c].balance - x)];
            RowsMatch(b3, pre, es + [Edge(d, c, x)])
  {
    assert (es + [Edge(d, c, x)])[..|es|] == es;
  }

  /** The creditor's row holds the working balance `Offer` pays against. */
  lemma OfferFrom(balances: map<Person, Balance>, pre: map<Person, real>, emitted: seq<Edge>,
                  d: Person, c: Person, remaining: real)
    requires RowsMatch(balances, pre, emitted) && c in balances
    ensures var working := balances[c].balance;
            Offer(pre, emitted, d, c, remaining)
            == if remaining > Epsilon && working > Epsilon
               then (emitted + [Edge(d, c, Min(remaining, working))], remaining - Min(remaining, working))
               else (emitted, remaining)
  {
  }

  /** One more split entry debits one more share to that entry only. */
  lemma DebitsPrefix(split: seq<Person>, j: nat, share: real)
    requires j < |split|
    ensures forall p :: Debits(split[..j + 1], p, share) == Debits(split[..j], p, share) + (if split[j] == p then share else 0.0)
  {
    assert split[..j + 1][..j] == split[..j];
  }

  /** The `expenses.forEach` callback for one expense: the payer's row (when present) is
      credited the amount, and each split entry's row (when present) is debited one share.
      For an empty split the share is a division by zero that the empty inner `forEach`
      never reads, so it is only computed when there is a split entry to debit. */
  method ApplyExpense(balances: map<Person, Balance>, e: Expense) returns (updated: map<Person, Balance>)
    ensures updated.Keys == balances.Keys
    ensures forall p | p in balances ::
              updated[p] == balances[p].(balance := balances[p].balance + Delta(e, p))
  {
    updated := balances;
    if e.paidBy in updated {
      updated := updated[e.paidBy := updated[e.paidBy].(balance := updated[e.paidBy].balance + e.amount)];
    }
    if |e.splitBetween| > 0 {
      var share := e.amount / |e.splitBetween| as real;
      var j := 0;
      while j < |e.splitBetween|
        invariant j <= |e.splitBetween|
        invariant updated.Keys == balances.Keys
        invariant forall p | p in balances :: updated[p] == balances[p].(balance :=
                    balances[p].balance + (if e.paidBy == p then e.amount else 0.0)
                      - Debits(e.splitBetween[..j], p, share))
      {
        var person := e.splitBetween[j];
        DebitsPrefix(e.splitBetween, j, share);
        if person in updated {
          updated := updated[person := updated[person].(balance := updated[person].balance - share)];
        }
        j := j + 1;
      }
      assert e.splitBetween[..j] == e.splitBetween;
    }
  }

  /** The `positiveBalances.forEach` callback for one creditor: when the debtor still owes and
      the creditor is still owed more than the tolerance, pay `min(remaining, creditor.balance)`,
      record it on both rows and decrement the creditor's balance field. The ghost `emitted`
      lists every edge recorded so far. */
  method OfferCreditor(balances: map<Person, Balance>, ghost pre: map<Person, real>, ghost emitted: seq<Edge>,
                       debtor: Person, creditor: Person, remaining: real)
    returns (updated: map<Person, Balance>, ghost emittedAfter: seq<Edge>, remainingAfter: real)
    requires RowsMatch(balances, pre, emitted)
    requires debtor in balances && creditor in balances
    ensures updated.Keys == balances.Keys
    ensures RowsMatch(updated, pre, emittedAfter)
    ensures (emittedAfter, remainingAfter) == Offer(pre, emitted, debtor, creditor, remaining)
  {
    var working := balances[creditor].balance;
    OfferFrom(balances, pre, emitted, debtor, creditor, remaining);
    updated, emittedAfter, remainingAfter := balances, emitted, remaining;
    if remainingAfter > Epsilon && working > Epsilon {
      var payment := Min(remainingAfter, working);
      RecordPayment(updated, pre, emittedAfter, debtor, creditor, payment);
      updated := updated[debtor := updated[debtor].(owes := updated[debtor].owes + [Debt(creditor, payment)])];
      updated := updated[creditor := updated[creditor].(owedBy := updated[creditor].owedBy + [Credit(debtor, payment)])];
      remainingAfter := remainingAfter - payment;
      updated := updated[creditor := updated[creditor].(balance := updated[creditor].balance - payment)];
      emittedAfter := emittedAfter + [Edge(debtor, creditor, payment)];
    }
  }

  /** The `negativeBalances.forEach` callback for one debtor: start from `|debtor.balance|` and
      offer every creditor in order. */
  method PayDebtor(balances: map<Person, Balance>, ghost pre: map<Person, real>, ghost emitted: seq<Edge>,
                   debtor: Person, creditors: seq<Person>)
    returns (updated: map<Person, Balance>, ghost emittedAfter: seq<Edge>)
    requires RowsMatch(balances, pre, emitted)
    requires debtor in balances && forall c | c in creditors :: c in balances
    ensures updated.Keys == balances.Keys
    ensures RowsMatch(updated, pre, emittedAfter)
    ensures emittedAfter == Turn(pre, emitted, debtor, creditors)
  {
    updated, emittedAfter := balances, emitted;
    var remaining := Abs(updated[debtor].balance);
    var j := 0;
    while j < |creditors|
      invariant j <= |creditors|
      invariant updated.Keys == balances.Keys
      invariant RowsMatch(updated, pre, emittedAfter)
      invariant Walk(pre, emitted, debtor, creditors, 0, Abs(pre[debtor] - Received(emitted, debtor)))
                == Walk(pre, emittedAfter, debtor, creditors, j, remaining)
    {
      updated, emittedAfter, remaining := OfferCreditor(updated, pre, emittedAfter, debtor, creditors[j], remaining);
      j := j + 1;
    }
  }

  /** The `allParticipants.forEach` pass: one row per roster entry, at balance 0 with no
      payments. */
  method InitialRows(roster: seq<Person>) returns (balances: map<Person, Balance>)
    ensures forall p :: p in balances <==> p in roster
    ensures forall p | p in balances :: balances[p] == Balance(p, 0.0, [], [])
  {
    balances := map[];
    var i := 0;
    while i < |roster|
      invariant i <= |roster|
      invariant forall p :: p in balances <==> p in roster[..i]
      invariant forall p | p in balances :: balances[p] == Balance(p, 0.0, [], [])
    {
      assert roster[..i + 1] == roster[..i] + [roster[i]];
      balances := balances[roster[i] := Balance(roster[i], 0.0, [], [])];
      i := i + 1;
    }
    assert roster[..i] == roster;
  }

  /** The `expenses.forEach` pass: every row's balance moves by the person's net over all
      expenses, and nothing else in the rows changes. */
  method Aggregate(balances: map<Person, Balance>, expenses: seq<Expense>) returns (updated: map<Person, Balance>)
    ensures updated.Keys == balances.Keys
    ensures forall p | p in balances ::
              updated[p] == balances[p].(balance := balances[p].balance + Net(expenses, p))
  {
    updated := balances;
    var k := 0;
    while k < |expenses|
      invariant k <= |expenses|
      invariant updated.Keys == balances.Keys
      invariant forall p | p in balances ::
                  updated[p] == balances[p].(balance := balances[p].balance + Net(expenses[..k], p))
    {
      assert expenses[..k + 1][..k] == expenses[..k];
      updated := ApplyExpense(updated, expenses[k]);
      k := k + 1;
    }
    assert expenses[..k] == expenses;
  }

  /** The `negativeBalances.forEach` pass: each debtor in turn walks the creditors. The rows
      end in step with the whole settlement plan. */
  method Settle(balances: map<Person, Balance>, ghost pre: map<Person, real>, debtors: seq<Person>, creditors: seq<Person>)
    returns (updated: map<Person, Balance>, ghost emitted: seq<Edge>)
    requires RowsMatch(balances, pre, [])
    requires (forall d | d in debtors :: d in balances) && forall c | c in creditors :: c in balances
    ensures updated.Keys == balances.Keys
    ensures RowsMatch(updated, pre, emitted)
    ensures emitted == Planned(pre, debtors, creditors, |debtors|)
  {
    updated, emitted := balances, [];
    assert (forall d | d in debtors :: d in pre) && forall c | c in creditors :: c in pre;
    var k := 0;
    while k < |debtors|
      invariant k <= |debtors|
      invariant updated.Keys == balances.Keys
      invariant RowsMatch(updated, pre, emitted)
      invariant emitted == Planned(pre, debtors, creditors, k)
    {
      updated, emitted := PayDebtor(updated, pre, emitted, debtors[k], creditors);
      k := k + 1;
    }
  }

  /** Zeroed rows moved by each person's net are in step with the balances after aggregation
      and no payment yet. */
  lemma AggregatedRows(roster: seq<Person>, expenses: seq<Expense>, balances: map<Person, Balance>)
    requires (forall p :: p in balances <==> p in roster)
    requires forall p | p in balances :: balances[p] == Balance(p, Net(expenses, p), [], [])
    ensures RowsMatch(balances, PreBalances(roster, expenses), [])
  {
  }

  /** The rows after aggregation, read in roster order, are the initial values, so the groups
      drawn from them are the debtors and creditors, all of them rows. */
  lemma AggregatedGroups(roster: seq<Person>, pre: map<Person, real>, balances: map<Person, Balance>, values: seq<Balance>)
    requires (forall p | p in roster :: p in balances && p in pre) && RowsMatch(balances, pre, [])
    requires |values| == |roster| && forall n | 0 <= n < |roster| :: values[n] == balances[roster[n]]
    ensures Group(values, false) == Debtors(roster, pre) && Group(values, true) == Creditors(roster, pre)
    ensures (forall d | d in Group(values, false) :: d in balances) && forall c | c in Group(values, true) :: c in balances
  {
    assert values == InitialValues(roster, pre);
    GroupMembers(roster, pre, true);
    GroupMembers(roster, pre, false);
  }

  /** `calculateBalances()`: the rows in roster order after aggregation and settlement. */
  method CalculateBalances(expenses: seq<Expense>, participants: seq<Person>) returns (result: seq<Balance>)
    ensures result == Report(expenses, participants)
  {
    var roster := Roster(participants, expenses);
    var balances := InitialRows(roster);
    balances := Aggregate(balances, expenses);

    // the aggregated rows, and the creditor and debtor groups drawn from them
    ghost var pre := PreBalances(roster, expenses);
    AggregatedRows(roster, expenses, balances);
    var values := seq(|roster|, n requires 0 <= n < |roster| => balances[roster[n]]);
    var creditors := Group(values, true);
    var debtors := Group(values, false);
    AggregatedGroups(roster, pre, balances, values);

    ghost var emitted;
    balances, emitted := Settle(balances, pre, debtors, creditors);
    RowsAreReport(expenses, participants, balances);

    // Object.values(balances)
    result := seq(|roster|, n requires 0 <= n < |roster| => balances[roster[n]]);
  }

  // ---------------------------------------------------------------------------------------
  // Summary figures

  /** "Total Spent": `expenses.reduce((sum, exp) => sum + exp.amount, 0)`. */
  function TotalSpent(es: seq<Expense>): (r: real)
    ensures (forall e | e in es :: e.amount >= 0.0) ==> r >= 0.0
    ensures (forall e | e in es :: e.amount > 0.0) ==> (r > 0.0 <==> es != [])
  {
    if es == [] then 0.0
    else
      assert forall e | e in es[..|es| - 1] :: e in es;
      TotalSpent(es[..|es| - 1]) + es[|es| - 1].amount
  }

  /** "Total Owed": `balances.reduce((sum, b) => sum + Math.max(0, -b.balance), 0)`. */
  function TotalOwed(rows: seq<Balance>): (t: real)
    ensures t >= 0.0
  {
    if rows == [] then 0.0
    else TotalOwed(rows[..|rows| - 1]) + (if -rows[|rows| - 1].balance > 0.0 then -rows[|rows| - 1].balance else 0.0)
  }

  /** "Settled Up": `balances.filter(b => Math.abs(b.balance) < 0.01).length`. */
  function SettledCount(rows: seq<Balance>): (n: nat)
    ensures n <= |rows|
  {
    if rows == [] then 0
    else SettledCount(rows[..|rows| - 1]) + (if Abs(rows[|rows| - 1].balance) < Epsilon then 1 else 0)
  }
}
