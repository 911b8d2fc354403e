/** The expense list of src/components/ExpenseList.tsx: the newest-first ordering of a copy of
    the expenses, the category badge colours, the per-person figure, and the empty state. */
module ExpenseList {
  import opened Wrappers
  import opened TripData

  /** Newest first: dates never increase along the list. */
  ghost predicate NewestFirst(s: seq<Expense>) {
    forall i, j | 0 <= i < j < |s| :: s[i].date >= s[j].date
  }

  /** Places `e` before the first entry that is not newer than it. */
  function Insert(e: Expense, s: seq<Expense>): (r: seq<Expense>)
    requires NewestFirst(s)
    ensures multiset(r) == multiset(s) + multiset{e}
    ensures forall x | x in r :: x == e || x in s
    ensures NewestFirst(r)
  {
    if s == [] then [e]
    else if s[0].date <= e.date then
      assert forall x | x in s :: s[0].date >= x.date by { FirstIsNewest(s); }
      ConsNewestFirst(e, s);
      [e] + s
    else
      NewestFirstTail(s);
      var rest := Insert(e, s[1..]);
      InsertPast(e, s, rest);
      [s[0]] + rest
  }

  lemma NewestFirstTail(s: seq<Expense>)
    requires s != [] && NewestFirst(s)
    ensures NewestFirst(s[1..])
  {
  }

  /** Inserting past a newer head: the head, then the insertion into the rest. */
  lemma InsertPast(e: Expense, s: seq<Expense>, rest: seq<Expense>)
    requires s != [] && NewestFirst(s) && s[0].date > e.date
    requires multiset(rest) == multiset(s[1..]) + multiset{e}
    requires forall x | x in rest :: x == e || x in s[1..]
    requires NewestFirst(rest)
    ensures multiset([s[0]] + rest) == multiset(s) + multiset{e}
    ensures forall x | x in [s[0]] + rest :: x == e || x in s
    ensures NewestFirst([s[0]] + rest)
  {
    assert s == [s[0]] + s[1..];
    FirstIsNewest(s);
    ConsNewestFirst(s[0], rest);
  }

  lemma FirstIsNewest(s: seq<Expense>)
    requires s != [] && NewestFirst(s)
    ensures forall x | x in s :: s[0].date >= x.date
  {
    forall x | x in s ensures s[0].date >= x.date {
      var k :| 0 <= k < |s| && s[k] == x;
      if k > 0 {
        assert s[0].date >= s[k].date;
      }
    }
  }

  lemma ConsNewestFirst(x: Expense, t: seq<Expense>)
    requires NewestFirst(t) && forall y | y in t :: x.date >= y.date
    ensures NewestFirst([x] + t)
  {
    var r := [x] + t;
    forall i, j | 0 <= i < j < |r| ensures r[i].date >= r[j].date {
      assert r[j] == t[j - 1];
      if i > 0 {
        assert r[i] == t[i - 1];
      } else {
        assert r[j] in t;
      }
    }
  }

  /** `[...expenses].sort((a, b) => date(b) - date(a))`: a sorted copy; the argument, being
      a value, is not reordered. Entries with equal dates keep their input order (see
      `SortedByDateStable`), as in the stable sort JavaScript engines use. */
  function SortedByDate(s: seq<Expense>): (r: seq<Expense>)
    ensures multiset(r) == multiset(s)
    ensures NewestFirst(r)
  {
    if s == [] then []
    else
      assert s == [s[0]] + s[1..];
      Insert(s[0], SortedByDate(s[1..]))
  }

  /** A list that is already newest first is left exactly as it is. */
  lemma {:induction false} SortedByDateKeepsSorted(s: seq<Expense>)
    requires NewestFirst(s)
    ensures SortedByDate(s) == s
  {
    if s != [] {
      SortedByDateKeepsSorted(s[1..]);
      assert s == [s[0]] + s[1..];
    }
  }

  /** The entries dated `d`, in list order. */
  function OnDate(s: seq<Expense>, d: int): (r: seq<Expense>)
    ensures forall x | x in r :: x in s && x.date == d
  {
    if s == [] then [] else (if s[0].date == d then [s[0]] else []) + OnDate(s[1..], d)
  }

  lemma {:induction false} InsertOnDate(e: Expense, s: seq<Expense>, d: int)
    requires NewestFirst(s)
    ensures OnDate(Insert(e, s), d) == (if e.date == d then [e] else []) + OnDate(s, d)
  {
    if s == [] {
      assert OnDate([e], d) == (if e.date == d then [e] else []) + OnDate([], d);
    } else if s[0].date <= e.date {
      assert ([e] + s)[1..] == s;
    } else {
      InsertOnDate(e, s[1..], d);
      InsertOnDatePast(e, s, d);
    }
  }

  /** The step where `e` goes past the first entry, which is strictly newer. */
  lemma InsertOnDatePast(e: Expense, s: seq<Expense>, d: int)
    requires NewestFirst(s) && s != [] && s[0].date > e.date
    requires OnDate(Insert(e, s[1..]), d) == (if e.date == d then [e] else []) + OnDate(s[1..], d)
    ensures OnDate(Insert(e, s), d) == (if e.date == d then [e] else []) + OnDate(s, d)
  {
    var rest := Insert(e, s[1..]);
    var tail := OnDate(s[1..], d);
    assert Insert(e, s) == [s[0]] + rest;
    assert ([s[0]] + rest)[1..] == rest;
    if e.date == d {
      assert OnDate(Insert(e, s), d) == OnDate(rest, d) == [e] + tail;
    } else {
      assert OnDate(rest, d) == [] + tail == tail;
    }
  }

  /** The sort is stable: for every date, the entries of that date appear in the same order
      as in the input. */
  lemma {:induction false} SortedByDateStable(s: seq<Expense>, d: int)
    ensures OnDate(SortedByDate(s), d) == OnDate(s, d)
  {
    if s != [] {
      SortedByDateStable(s[1..], d);
      InsertOnDate(s[0], SortedByDate(s[1..]), d);
    }
  }

  /** What the list renders: the empty state, or the expense cards in display order. */
  datatype View = NoExpenses | Cards(cards: seq<Expense>)

  /** The component's two branches: an empty list takes the empty-state branch and shows no
      card; otherwise every expense is shown once, newest first. */
  function Render(expenses: seq<Expense>): (v: View)
    ensures v.NoExpenses? <==> expenses == []
    ensures v.Cards? ==> multiset(v.cards) == multiset(expenses) && NewestFirst(v.cards) && |v.cards| == |expenses|
  {
    if |expenses| == 0 then NoExpenses
    else
      var cards := SortedByDate(expenses);
      assert |cards| == |multiset(cards)| == |multiset(expenses)| == |expenses|;
      Cards(cards)
  }

  /** The badge class of each of the six categories. */
  const CategoryColors: map<string, string> := map[
    "Transportation" := "bg-ocean text-white",
    "Accommodation" := "bg-sunset text-white",
    "Food" := "bg-mint text-white",
    "Activities" := "bg-coral text-white",
    "Shopping" := "bg-primary text-primary-foreground",
    "Other" := "bg-muted text-muted-foreground"
  ]

  /** `getCategoryColor`: the class of a known category, and the "Other" class for any other
      string. */
  function CategoryColor(category: string): (cls: string)
    ensures category in CategoryColors ==> cls == CategoryColors[category]
    ensures category !in CategoryColors ==> cls == "bg-muted text-muted-foreground"
    ensures cls in CategoryColors.Values
  {
    if category in CategoryColors && CategoryColors[category] != "" then CategoryColors[category]
    else CategoryColors["Other"]
  }

  /** The per-person figure `amount / splitBetween.length`; `None` stands for the non-finite
      value JavaScript shows for an empty split. */
  function PerPerson(e: Expense): (r: Option<real>)
    ensures r.Some? <==> |e.splitBetween| > 0
    ensures r.Some? ==> r.value * |e.splitBetween| as real == e.amount
  {
    if |e.splitBetween| > 0 then Some(e.amount / |e.splitBetween| as real) else None
  }
}
