/** What the rows returned by `calculateBalances` guarantee, and what the summary figures
    above them add up to. */
module ReportFacts {
  import opened Seqs
  import opened Wrappers
  import opened TripData
  import opened Balances
  import opened SettlementFacts

  // ---------------------------------------------------------------------------------------
  // Mirrored entries

  /** `owes` of `d` lists exactly the edges paid by `d`. */
  lemma {:induction false} OwesAreEdges(es: seq<Edge>, d: Person, c: Person, x: real)
    ensures Debt(c, x) in OwesOf(es, d) <==> Edge(d, c, x) in es
  {
    if es != [] {
      OwesAreEdges(es[..|es| - 1], d, c, x);
      assert es == es[..|es| - 1] + [es[|es| - 1]];
    }
  }

  /** `owedBy` of `c` lists exactly the edges paid to `c`. */
  lemma {:induction false} OwedByAreEdges(es: seq<Edge>, d: Person, c: Person, x: real)
    ensures Credit(d, x) in OwedByOf(es, c) <==> Edge(d, c, x) in es
  {
    if es != [] {
      OwedByAreEdges(es[..|es| - 1], d, c, x);
      assert es == es[..|es| - 1] + [es[|es| - 1]];
    }
  }

  /** Every `owes {to: c, amount: x}` on `d` has a matching `owedBy {from: d, amount: x}` on `c`,
      and back. */
  lemma Mirrored(es: seq<Edge>, d: Person, c: Person, x: real)
    ensures Debt(c, x) in OwesOf(es, d) <==> Credit(d, x) in OwedByOf(es, c)
  {
    OwesAreEdges(es, d, c, x);
    OwedByAreEdges(es, d, c, x);
  }

  function SumDebts(ds: seq<Debt>): real {
    if ds == [] then 0.0 else SumDebts(ds[..|ds| - 1]) + ds[|ds| - 1].amount
  }

  function SumCredits(cs: seq<Credit>): real {
    if cs == [] then 0.0 else SumCredits(cs[..|cs| - 1]) + cs[|cs| - 1].amount
  }

  lemma {:induction false} SumDebtsConcat(a: seq<Debt>, b: seq<Debt>)
    ensures SumDebts(a + b) == SumDebts(a) + SumDebts(b)
  {
    if b != [] {
      assert (a + b)[..|a + b| - 1] == a + b[..|b| - 1];
      SumDebtsConcat(a, b[..|b| - 1]);
    } else {
      assert a + b == a;
    }
  }

  lemma {:induction false} SumCreditsConcat(a: seq<Credit>, b: seq<Credit>)
    ensures SumCredits(a + b) == SumCredits(a) + SumCredits(b)
  {
    if b != [] {
      assert (a + b)[..|a + b| - 1] == a + b[..|b| - 1];
      SumCreditsConcat(a, b[..|b| - 1]);
    } else {
      assert a + b == a;
    }
  }

  /** The `owes` amounts of `d` add up to what `d` pays, the `owedBy` amounts of `c` to what
      `c` receives. */
  lemma {:induction false} ListedTotals(es: seq<Edge>, p: Person)
    ensures SumDebts(OwesOf(es, p)) == Sent(es, p)
    ensures SumCredits(OwedByOf(es, p)) == Received(es, p)
  {
    if es != [] {
      var last := es[|es| - 1];
      ListedTotals(es[..|es| - 1], p);
      SumDebtsConcat(OwesOf(es[..|es| - 1], p), if last.debtor == p then [Debt(last.creditor, last.amount)] else []);
      SumCreditsConcat(OwedByOf(es[..|es| - 1], p), if last.creditor == p then [Credit(last.debtor, last.amount)] else []);
    }
  }

  lemma {:induction false} ReceivedNonNegative(es: seq<Edge>, p: Person)
    requires forall e | e in es :: e.amount > 0.0
    ensures Received(es, p) >= 0.0
  {
    if es != [] {
      ReceivedNonNegative(es[..|es| - 1], p);
    }
  }

  // ---------------------------------------------------------------------------------------
  // The returned rows

  /** Row `n` of the result, for person `p` with net `net` after aggregation. A creditor's
      balance field has been decremented by what it receives but stays between 0 and its net;
      everybody else's field is their net, untouched. Only debtors owe, in total at most their
      debt; only creditors are owed. Every entry names another person, on the other side, and
      exceeds the tolerance. */
  lemma ReportRow(expenses: seq<Expense>, participants: seq<Person>, n: nat)
    requires n < |Roster(participants, expenses)|
    ensures var p := Roster(participants, expenses)[n];
            var net := Net(expenses, p);
            var row := Report(expenses, participants)[n];
            && row.person == p
            && (net > Epsilon ==> 0.0 <= row.balance <= net)
            && (net <= Epsilon ==> row.balance == net && row.owedBy == [])
            && (net < -Epsilon ==> SumDebts(row.owes) <= -net)
            && (net >= -Epsilon ==> row.owes == [])
            && (forall debt | debt in row.owes ::
                  debt.to != p && debt.amount > Epsilon && Net(expenses, debt.to) > Epsilon)
            && (forall credit | credit in row.owedBy ::
                  credit.from != p && credit.amount > Epsilon && Net(expenses, credit.from) < -Epsilon)
  {
    var roster := Roster(participants, expenses);
    var pre := PreBalances(roster, expenses);
    var es := Settlement(roster, pre);
    var p := roster[n];
    var row := Report(expenses, participants)[n];
    SettlementSound(roster, pre);
    GroupMembers(roster, pre, true);
    GroupMembers(roster, pre, false);
    ListedTotals(es, p);
    ReceivedNonNegative(es, p);
    forall debt | debt in row.owes
      ensures debt.to != p && debt.amount > Epsilon && Net(expenses, debt.to) > Epsilon
    {
      OwesAreEdges(es, p, debt.to, debt.amount);
    }
    forall credit | credit in row.owedBy
      ensures credit.from != p && credit.amount > Epsilon && Net(expenses, credit.from) < -Epsilon
    {
      OwedByAreEdges(es, credit.from, p, credit.amount);
    }
    if row.owes != [] {
      OwesAreEdges(es, p, row.owes[0].to, row.owes[0].amount);
    }
    if row.owedBy != [] {
      OwedByAreEdges(es, row.owedBy[0].from, p, row.owedBy[0].amount);
    }
  }

  // ---------------------------------------------------------------------------------------
  // Conservation

  /** `f` summed over the persons `ps`. */
  function Sum(ps: seq<Person>, f: Person -> real): real {
    if ps == [] then 0.0 else Sum(ps[..|ps| - 1], f) + f(ps[|ps| - 1])
  }

  lemma {:induction false} SumZero(ps: seq<Person>, f: Person -> real)
    requires forall p :: f(p) == 0.0
    ensures Sum(ps, f) == 0.0
  {
    if ps != [] {
      SumZero(ps[..|ps| - 1], f);
    }
  }

  lemma {:induction false} SumAdd(ps: seq<Person>, f: Person -> real, g: Person -> real, h: Person -> real)
    requires forall p :: h(p) == f(p) + g(p)
    ensures Sum(ps, h) == Sum(ps, f) + Sum(ps, g)
  {
    if ps != [] {
      SumAdd(ps[..|ps| - 1], f, g, h);
    }
  }

  /** Summing a function that is `v` at `q` and zero elsewhere over a duplicate-free roster. */
  lemma {:induction false} SumPoint(ps: seq<Person>, q: Person, v: real, f: Person -> real)
    requires NoDup(ps) && forall p :: f(p) == if p == q then v else 0.0
    ensures Sum(ps, f) == if q in ps then v else 0.0
  {
    if ps != [] {
      var init := ps[..|ps| - 1];
      assert ps == init + [ps[|ps| - 1]];
      SumPoint(init, q, v, f);
    }
  }

  /** Over a roster holding every split entry once, the debits of a split add up to one share
      per entry. */
  lemma {:induction false} DebitsTotal(ps: seq<Person>, split: seq<Person>, share: real)
    requires NoDup(ps) && forall x | x in split :: x in ps
    ensures Sum(ps, p => Debits(split, p, share)) == |split| as real * share
  {
    if split != [] {
      var init := split[..|split| - 1];
      assert forall x | x in init :: x in ps by {
        forall x | x in init ensures x in ps {
          var k :| 0 <= k < |init| && init[k] == x;
          assert split[k] in split;
        }
      }
      DebitsTotal(ps, init, share);
      DebitsTotalStep(ps, split, share);
    } else {
      SumZero(ps, p => Debits(split, p, share));
    }
  }

  /** One more split entry adds one share to the total debits. */
  lemma DebitsTotalStep(ps: seq<Person>, split: seq<Person>, share: real)
    requires NoDup(ps) && split != [] && split[|split| - 1] in ps
    requires Sum(ps, p => Debits(split[..|split| - 1], p, share)) == (|split| - 1) as real * share
    ensures Sum(ps, p => Debits(split, p, share)) == |split| as real * share
  {
    var init := split[..|split| - 1];
    var last := split[|split| - 1];
    SumPoint(ps, last, share, p => if p == last then share else 0.0);
    SumAdd(ps, p => Debits(init, p, share), p => if p == last then share else 0.0, p => Debits(split, p, share));
    assert (|init| + 1) as real * share == |init| as real * share + share;
  }

  /** One expense moves nothing in total: the payer's credit equals the split's debits. */
  lemma DeltaTotal(ps: seq<Person>, e: Expense)
    requires |e.splitBetween| > 0
    requires NoDup(ps) && e.paidBy in ps && forall x | x in e.splitBetween :: x in ps
    ensures Sum(ps, p => Delta(e, p)) == 0.0
  {
    var credit := p => if p == e.paidBy then e.amount else 0.0;
    var debit := p => -Debits(e.splitBetween, p, Share(e));
    SumPoint(ps, e.paidBy, e.amount, credit);
    DebitsTotal(ps, e.splitBetween, Share(e));
    SharesMakeAmount(e);
    NegatedSum(ps, p => Debits(e.splitBetween, p, Share(e)), debit);
    SumAdd(ps, credit, debit, p => Delta(e, p));
  }

  /** The shares of an expense add up to its amount. */
  lemma SharesMakeAmount(e: Expense)
    requires |e.splitBetween| > 0
    ensures |e.splitBetween| as real * Share(e) == e.amount
  {
  }

  lemma {:induction false} NegatedSum(ps: seq<Person>, f: Person -> real, g: Person -> real)
    requires forall p :: g(p) == -f(p)
    ensures Sum(ps, g) == -Sum(ps, f)
  {
    if ps != [] {
      NegatedSum(ps[..|ps| - 1], f, g);
    }
  }

  /** Over a roster covering every payer and split entry once, the balances after aggregation
      add up to zero. */
  lemma {:induction false} NetTotal(ps: seq<Person>, es: seq<Expense>)
    requires ValidSplits(es) && NoDup(ps) && Covers(ps, es)
    ensures Sum(ps, p => Net(es, p)) == 0.0
  {
    if es != [] {
      var init := es[..|es| - 1];
      var last := es[|es| - 1];
      NetTotal(ps, init);
      DeltaTotal(ps, last);
      SumAdd(ps, p => Net(init, p), p => Delta(last, p), p => Net(es, p));
    } else {
      SumZero(ps, p => Net(es, p));
    }
  }

  /** Conservation: the balances after aggregation sum to exactly zero over the roster. */
  lemma Conservation(expenses: seq<Expense>, participants: seq<Person>)
    requires ValidSplits(expenses)
    ensures Sum(Roster(participants, expenses), p => Net(expenses, p)) == 0.0
  {
    NetTotal(Roster(participants, expenses), expenses);
  }

  /** An expense with an empty split credits its payer and debits nobody: the inner
      `forEach` has no entry to visit. */
  lemma UnsplitExpense(es: seq<Expense>, e: Expense, p: Person)
    requires e.splitBetween == []
    ensures Net(es + [e], p) == Net(es, p) + (if p == e.paidBy then e.amount else 0.0)
  {
    assert (es + [e])[..|es|] == es;
  }

  /** Without a split entry conservation fails: one such expense leaves the balances
      summing to its amount rather than to zero. */
  lemma UnsplitTotal(e: Expense, participants: seq<Person>)
    requires e.splitBetween == []
    ensures Sum(Roster(participants, [e]), p => Net([e], p)) == e.amount
  {
    var roster := Roster(participants, [e]);
    forall p ensures Net([e], p) == if p == e.paidBy then e.amount else 0.0 {
      UnsplitExpense([], e, p);
      assert [] + [e] == [e];
    }
    assert e in [e];
    SumPoint(roster, e.paidBy, e.amount, p => Net([e], p));
  }

  /** An expense whose split lists only its payer changes nobody's balance. */
  lemma SelfPaid(es: seq<Expense>, e: Expense, p: Person)
    requires |e.splitBetween| > 0
    requires forall x | x in e.splitBetween :: x == e.paidBy
    ensures Net(es + [e], p) == Net(es, p)
  {
    assert (es + [e])[..|es|] == es;
    if p == e.paidBy {
      assert forall k | 0 <= k < |e.splitBetween| :: e.splitBetween[k] == p by {
        forall k | 0 <= k < |e.splitBetween| ensures e.splitBetween[k] == p {
          assert e.splitBetween[k] in e.splitBetween;
        }
      }
      DebitsAll(e.splitBetween, p, Share(e));
      SharesMakeAmount(e);
    } else {
      DebitsNone(e.splitBetween, p, Share(e));
    }
  }

  /** A split made only of `p` debits `p` one share per entry. */
  lemma {:induction false} DebitsAll(split: seq<Person>, p: Person, share: real)
    requires forall k | 0 <= k < |split| :: split[k] == p
    ensures Debits(split, p, share) == |split| as real * share
  {
    if split != [] {
      var init := split[..|split| - 1];
      DebitsAll(init, p, share);
      assert (|init| + 1) as real * share == |init| as real * share + share;
    }
  }

  // ---------------------------------------------------------------------------------------
  // The roster

  /** The roster lists participants, then payers, then split members, each once, in order of
      first appearance. */
  lemma RosterOrder(participants: seq<Person>, es: seq<Expense>, i: nat, j: nat)
    requires i < j < |Roster(participants, es)|
    ensures var all := participants + Payers(es) + SplitMembers(es);
            var r := Roster(participants, es);
            IndexOf(all, r[i]) < IndexOf(all, r[j])
  {
    DedupFirstAppearance(participants + Payers(es) + SplitMembers(es), i, j);
  }

  // ---------------------------------------------------------------------------------------
  // Summary figures

  /** What `p` paid across `es`. */
  function Paid(es: seq<Expense>, p: Person): real {
    if es == [] then 0.0
    else Paid(es[..|es| - 1], p) + (if es[|es| - 1].paidBy == p then es[|es| - 1].amount else 0.0)
  }

  /** "Total Spent" is what the roster paid between them. */
  lemma {:induction false} TotalSpentIsPaid(ps: seq<Person>, es: seq<Expense>)
    requires NoDup(ps) && forall e | e in es :: e.paidBy in ps
    ensures TotalSpent(es) == Sum(ps, p => Paid(es, p))
  {
    if es != [] {
      var init := es[..|es| - 1];
      var last := es[|es| - 1];
      TotalSpentIsPaid(ps, init);
      SumPoint(ps, last.paidBy, last.amount, p => if p == last.paidBy then last.amount else 0.0);
      SumAdd(ps, p => Paid(init, p), p => if p == last.paidBy then last.amount else 0.0, p => Paid(es, p));
    } else {
      SumZero(ps, p => Paid(es, p));
    }
  }

  function Owing(x: real): real {
    if -x > 0.0 then -x else 0.0
  }

  function Owed(x: real): real {
    if x > 0.0 then x else 0.0
  }

  lemma {:induction false} TotalOwedPointwise(rows: seq<Balance>, ps: seq<Person>, f: Person -> real)
    requires |rows| == |ps| && forall i | 0 <= i < |rows| :: Owing(rows[i].balance) == f(ps[i])
    ensures TotalOwed(rows) == Sum(ps, f)
  {
    if rows != [] {
      TotalOwedPointwise(rows[..|rows| - 1], ps[..|ps| - 1], f);
    }
  }

  /** "Total Owed" adds up what every debtor owed after aggregation: settlement leaves debtors'
      fields alone and never takes a creditor's field below zero. */
  lemma TotalOwedIsDebt(expenses: seq<Expense>, participants: seq<Person>)
    ensures TotalOwed(Report(expenses, participants))
            == Sum(Roster(participants, expenses), p => Owing(Net(expenses, p)))
  {
    var rows := Report(expenses, participants);
    var roster := Roster(participants, expenses);
    forall i | 0 <= i < |rows| ensures Owing(rows[i].balance) == Owing(Net(expenses, roster[i])) {
      ReportRow(expenses, participants, i);
    }
    TotalOwedPointwise(rows, roster, p => Owing(Net(expenses, p)));
  }

  /** Because balances are conserved, "Total Owed" also equals what creditors are owed. */
  lemma TotalOwedIsCredit(expenses: seq<Expense>, participants: seq<Person>)
    requires ValidSplits(expenses)
    ensures TotalOwed(Report(expenses, participants))
            == Sum(Roster(participants, expenses), p => Owed(Net(expenses, p)))
  {
    var roster := Roster(participants, expenses);
    TotalOwedIsDebt(expenses, participants);
    Conservation(expenses, participants);
    SumAdd(roster, p => Net(expenses, p), p => Owing(Net(expenses, p)), p => Owed(Net(expenses, p)));
  }

  lemma {:induction false} SettledMonotone(a: seq<Balance>, b: seq<Balance>)
    requires |a| == |b| && forall i | 0 <= i < |a| :: Abs(a[i].balance) < Epsilon ==> Abs(b[i].balance) < Epsilon
    ensures SettledCount(a) <= SettledCount(b)
  {
    if a != [] {
      SettledMonotone(a[..|a| - 1], b[..|b| - 1]);
    }
  }

  /** "Settled Up" never counts fewer people after settlement than before it: a person settled
      after aggregation is in neither group and is untouched. */
  lemma SettledCountGrows(expenses: seq<Expense>, participants: seq<Person>)
    ensures var roster := Roster(participants, expenses);
            SettledCount(InitialValues(roster, PreBalances(roster, expenses)))
            <= SettledCount(Report(expenses, participants))
  {
    var roster := Roster(participants, expenses);
    var before := InitialValues(roster, PreBalances(roster, expenses));
    var after := Report(expenses, participants);
    forall i | 0 <= i < |before| ensures Abs(before[i].balance) < Epsilon ==> Abs(after[i].balance) < Epsilon {
      ReportRow(expenses, participants, i);
    }
    SettledMonotone(before, after);
  }

  // ---------------------------------------------------------------------------------------
  // Worked examples

  /** `a` pays 100 split between `a` and `b`: `b` pays `a` 50; `a`'s field is decremented to 0
      and counts as settled, `b`'s stays at -50, and 50 is owed in total. */
  lemma PayerPaidBack(e: Expense, a: Person, b: Person)
    requires a != b && e.amount == 100.0 && e.paidBy == a && e.splitBetween == [a, b]
    ensures var rows := Report([e], [a, b]);
            && rows == [Balance(a, 0.0, [], [Credit(b, 50.0)]), Balance(b, -50.0, [Debt(a, 50.0)], [])]
            && SettledCount(rows) == 1
            && TotalOwed(rows) == 50.0
  {
    var roster := [a, b];
    ExampleRoster(e, a, b);
    ExampleNet(e, a, b);
    var pre := PreBalances(roster, [e]);
    assert pre == map[a := 50.0, b := -50.0];
    ExampleSettlement(pre, a, b);
    ExampleRows(e, a, b);
    ExampleSummary(Balance(a, 0.0, [], [Credit(b, 50.0)]), Balance(b, -50.0, [Debt(a, 50.0)], []));
  }

  lemma ExampleRows(e: Expense, a: Person, b: Person)
    requires a != b && Roster([a, b], [e]) == [a, b]
    requires PreBalances([a, b], [e]) == map[a := 50.0, b := -50.0]
    requires Settlement([a, b], map[a := 50.0, b := -50.0]) == [Edge(b, a, 50.0)]
    ensures Report([e], [a, b])
            == [Balance(a, 0.0, [], [Credit(b, 50.0)]), Balance(b, -50.0, [Debt(a, 50.0)], [])]
  {
    ExampleLists(a, b);
    var rows := Report([e], [a, b]);
    assert rows[0] == Balance(a, 0.0, [], [Credit(b, 50.0)]);
    assert rows[1] == Balance(b, -50.0, [Debt(a, 50.0)], []);
  }

  lemma ExampleLists(a: Person, b: Person)
    requires a != b
    ensures var es := [Edge(b, a, 50.0)];
            && Received(es, a) == 50.0 && Received(es, b) == 0.0
            && OwedByOf(es, a) == [Credit(b, 50.0)] && OwesOf(es, a) == []
            && OwedByOf(es, b) == [] && OwesOf(es, b) == [Debt(a, 50.0)]
  {
    assert [Edge(b, a, 50.0)][..0] == [];
  }

  lemma ExampleSummary(rowA: Balance, rowB: Balance)
    requires rowA.balance == 0.0 && rowB.balance == -50.0
    ensures TotalOwed([rowA, rowB]) == 50.0 && SettledCount([rowA, rowB]) == 1
  {
    assert [rowA, rowB][..1] == [rowA];
    assert [rowA][..0] == [];
    assert TotalOwed([rowA]) == 0.0;
    assert SettledCount([rowA]) == 1;
  }

  lemma DedupSnoc<T(!new)>(s: seq<T>, x: T)
    ensures Dedup(s + [x]) == if x in Dedup(s) then Dedup(s) else Dedup(s) + [x]
  {
    assert (s + [x])[..|s|] == s;
  }

  lemma DedupExample<T(!new)>(a: T, b: T)
    requires a != b
    ensures Dedup([a, b, a, a, b]) == [a, b]
  {
    DedupOne(a);
    DedupTwo(a, b);
    DedupRepeat([a, b], a, [a, b]);
    assert [a, b] + [a] == [a, b, a];
    DedupRepeat([a, b, a], a, [a, b]);
    assert [a, b, a] + [a] == [a, b, a, a];
    DedupRepeat([a, b, a, a], b, [a, b]);
    assert [a, b, a, a] + [b] == [a, b, a, a, b];
  }

  lemma DedupOne<T(!new)>(a: T)
    ensures Dedup([a]) == [a]
  {
    assert [a][..0] == [];
  }

  lemma DedupTwo<T(!new)>(a: T, b: T)
    requires a != b
    ensures Dedup([a, b]) == [a, b]
  {
    DedupOne(a);
    assert [a, b][..1] == [a];
  }

  /** Appending an element already listed leaves the de-duplication as it is. */
  lemma DedupRepeat<T(!new)>(s: seq<T>, x: T, r: seq<T>)
    requires Dedup(s) == r && x in r
    ensures Dedup(s + [x]) == r
  {
    DedupSnoc(s, x);
  }

  lemma ExampleRoster(e: Expense, a: Person, b: Person)
    requires a != b && e.paidBy == a && e.splitBetween == [a, b]
    ensures Roster([a, b], [e]) == [a, b]
  {
    assert [e][1..] == [];
    assert Payers([e]) == [a] && SplitMembers([e]) == [a, b];
    assert [a, b] + Payers([e]) + SplitMembers([e]) == [a, b, a, a, b];
    DedupExample(a, b);
  }

  lemma ExampleNet(e: Expense, a: Person, b: Person)
    requires a != b && e.paidBy == a && e.splitBetween == [a, b] && e.amount == 100.0
    ensures Net([e], a) == 50.0 && Net([e], b) == -50.0
  {
    assert [e][..0] == [];
    assert [a, b][..1] == [a];
    assert [a][..0] == [];
    assert Debits([], b, 50.0) == 0.0;
    assert Debits([a], a, 50.0) == 50.0;
    assert Debits([a], b, 50.0) == Debits([], b, 50.0);
    assert Debits([a, b], a, 50.0) == 50.0;
    assert Debits([a, b], b, 50.0) == 50.0;
    assert Share(e) == 50.0;
  }

  lemma ExampleSettlement(pre: map<Person, real>, a: Person, b: Person)
    requires a != b && pre == map[a := 50.0, b := -50.0]
    ensures Settlement([a, b], pre) == [Edge(b, a, 50.0)]
  {
    var values := InitialValues([a, b], pre);
    assert values == [Balance(a, 50.0, [], []), Balance(b, -50.0, [], [])];
    assert values[1..] == [Balance(b, -50.0, [], [])];
    assert values[1..][1..] == [];
    assert Group(values[1..], true) == [];
    assert Group(values, true) == [a];
    assert Group(values[1..], false) == [b];
    assert Group(values, false) == [b];
    var edge := Edge(b, a, 50.0);
    assert Received([], a) == 0.0 && Received([], b) == 0.0;
    assert Abs(pre[b] - Received([], b)) == 50.0;
    assert pre[a] - Received([], a) == 50.0;
    assert Min(50.0, 50.0) == 50.0;
    assert [] + [edge] == [edge];
    assert Offer(pre, [], b, a, 50.0) == ([edge], 0.0);
    assert Walk(pre, [edge], b, [a], 1, 0.0) == [edge];
    assert Walk(pre, [], b, [a], 0, 50.0) == [edge];
    assert Debtors([a, b], pre) == [b] && Creditors([a, b], pre) == [a];
    assert Planned(pre, [b], [a], 0) == [];
    assert Planned(pre, [b], [a], 1) == [edge];
  }

  /** Settlement need not clear every debtor: when the credit is spread over people each within
      the tolerance, nobody is a creditor and a debtor beyond the tolerance pays nothing. */
  lemma UnpaidDebtor(a: Person, b: Person, c: Person)
    requires a != b && b != c && a != c
    ensures var pre := map[a := 0.009, b := 0.009, c := -0.018];
            var roster := [a, b, c];
            && Debtors(roster, pre) == [c]
            && Settlement(roster, pre) == []
  {
    var pre := map[a := 0.009, b := 0.009, c := -0.018];
    var roster := [a, b, c];
    var values := InitialValues(roster, pre);
    assert values == [Balance(a, 0.009, [], []), Balance(b, 0.009, [], []), Balance(c, -0.018, [], [])];
    assert values[1..] == [Balance(b, 0.009, [], []), Balance(c, -0.018, [], [])];
    assert values[1..][1..] == [Balance(c, -0.018, [], [])];
    assert values[1..][1..][1..] == [];
    assert Group(values[1..][1..], true) == [];
    assert Group(values[1..], true) == [];
    assert Group(values, true) == [];
    assert Group(values[1..][1..], false) == [c];
    assert Group(values[1..], false) == [c];
    assert Group(values, false) == [c];
    assert Received([], c) == 0.0;
    assert Walk(pre, [], c, [], 0, 0.018) == [];
    assert Debtors(roster, pre) == [c] && Creditors(roster, pre) == [];
    assert Planned(pre, [c], [], 0) == [];
    assert Planned(pre, [c], [], 1) == [];
  }
}
