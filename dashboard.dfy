/** The in-memory dashboard of src/components/TripDashboard.tsx: the trip and expense lists,
    the selected trip, the expenses shown for it, and the bookkeeping of `addTrip` and
    `addExpense`, which keeps each trip's `totalExpenses` equal to the amounts charged to it. */
module Dashboard {
  import opened Wrappers
  import opened TripData

  /** `expenses.filter(expense => expense.tripId === selectedTrip?.id)`: with no selection the
      id is `undefined` and nothing matches. */
  function ForTrip(expenses: seq<Expense>, selected: Option<string>): (r: seq<Expense>)
    ensures |r| <= |expenses|
    ensures forall e :: e in r <==> e in expenses && selected == Some(e.tripId)
  {
    if expenses == [] then []
    else
      var rest := ForTrip(expenses[1..], selected);
      assert forall e :: e in expenses <==> e == expenses[0] || e in expenses[1..];
      if selected == Some(expenses[0].tripId) then [expenses[0]] + rest else rest
  }

  /** The filter keeps the original order: it distributes over concatenation. */
  lemma {:induction false} ForTripConcat(a: seq<Expense>, b: seq<Expense>, selected: Option<string>)
    ensures ForTrip(a + b, selected) == ForTrip(a, selected) + ForTrip(b, selected)
  {
    if a == [] {
      assert a + b == b;
    } else {
      assert (a + b)[0] == a[0] && (a + b)[1..] == a[1..] + b;
      ForTripConcat(a[1..], b, selected);
    }
  }

  /** The number of trips with the given id. */
  function Matches(trips: seq<Trip>, id: string): nat {
    if trips == [] then 0 else (if trips[0].id == id then 1 else 0) + Matches(trips[1..], id)
  }

  /** The sum of every trip's `totalExpenses`. */
  function Totals(trips: seq<Trip>): real {
    if trips == [] then 0.0 else trips[0].totalExpenses + Totals(trips[1..])
  }

  /** The `trips.map` of `addExpense`: the trip with the expense's id has the amount added to
      its total, and every other trip is left as it is. */
  function Charged(trips: seq<Trip>, tripId: string, amount: real): (r: seq<Trip>)
    ensures |r| == |trips|
  {
    if trips == [] then []
    else
      var t := trips[0];
      [if t.id == tripId then t.(totalExpenses := t.totalExpenses + amount) else t]
        + Charged(trips[1..], tripId, amount)
  }

  /** Trip by trip: the one with the expense's id has the amount added to its total, and
      every other trip is left as it is. */
  lemma {:induction false} ChargedAt(trips: seq<Trip>, tripId: string, amount: real)
    ensures var r := Charged(trips, tripId, amount);
            forall k | 0 <= k < |trips| ::
              && r[k].id == trips[k].id
              && (trips[k].id == tripId ==> r[k] == trips[k].(totalExpenses := trips[k].totalExpenses + amount))
              && (trips[k].id != tripId ==> r[k] == trips[k])
  {
    if trips != [] {
      ChargedAt(trips[1..], tripId, amount);
      var r := Charged(trips, tripId, amount);
      assert r[1..] == Charged(trips[1..], tripId, amount);
      forall k | 1 <= k < |trips| ensures r[k] == r[1..][k - 1] && trips[k] == trips[1..][k - 1] {}
    }
  }

  /** Across all trips, the totals grow by the amount once per trip carrying the id: by exactly
      the amount when the id names one trip, and not at all when it names none. */
  lemma ChargedTotals(trips: seq<Trip>, tripId: string, amount: real)
    ensures Totals(Charged(trips, tripId, amount)) == Totals(trips) + amount * Matches(trips, tripId) as real
  {
    ChargedTotalsRepeated(trips, tripId, amount);
    RepeatedIsProduct(amount, Matches(trips, tripId));
  }

  /** `amount` added `n` times. */
  function Repeated(amount: real, n: nat): real {
    if n == 0 then 0.0 else Repeated(amount, n - 1) + amount
  }

  lemma {:induction false} RepeatedIsProduct(amount: real, n: nat)
    ensures Repeated(amount, n) == amount * n as real
  {
    if n > 0 {
      RepeatedIsProduct(amount, n - 1);
      assert amount * n as real == amount * (n - 1) as real + amount;
    }
  }

  lemma {:induction false} ChargedTotalsRepeated(trips: seq<Trip>, tripId: string, amount: real)
    ensures Totals(Charged(trips, tripId, amount)) == Totals(trips) + Repeated(amount, Matches(trips, tripId))
  {
    if trips != [] {
      var t := trips[0];
      var t' := if t.id == tripId then t.(totalExpenses := t.totalExpenses + amount) else t;
      var rest := Charged(trips[1..], tripId, amount);
      ChargedTotalsRepeated(trips[1..], tripId, amount);
      assert Charged(trips, tripId, amount) == [t'] + rest;
      assert ([t'] + rest)[1..] == rest;
    }
  }

  /** When no trip carries the id, the map returns the list unchanged. */
  lemma {:induction false} ChargedNoMatch(trips: seq<Trip>, tripId: string, amount: real)
    requires Matches(trips, tripId) == 0
    ensures Charged(trips, tripId, amount) == trips
  {
    if trips != [] {
      ChargedNoMatch(trips[1..], tripId, amount);
    }
  }

  /** `trips.find(t => t.id === id)`: the first trip with the id, if any. */
  function FindTrip(trips: seq<Trip>, id: string): (r: Option<Trip>)
    ensures r.None? <==> Matches(trips, id) == 0
    ensures r.Some? ==> r.value.id == id && r.value in trips
    ensures r.Some? ==> exists k | 0 <= k < |trips| :: trips[k] == r.value && forall i | 0 <= i < k :: trips[i].id != id
  {
    if trips == [] then None
    else if trips[0].id == id then Some(trips[0])
    else
      var r := FindTrip(trips[1..], id);
      if r.Some? then
        var k :| 0 <= k < |trips[1..]| && trips[1..][k] == r.value && forall i | 0 <= i < k :: trips[1..][i].id != id;
        assert trips[k + 1] == r.value && forall i | 0 <= i < k + 1 :: trips[i].id != id;
        r
      else r
  }

  /** The per-person figure `totalExpenses / participants.length`; `None` stands for the
      non-finite value JavaScript shows for a trip without participants. */
  function PerPerson(t: Trip): (r: Option<real>)
    ensures r.Some? <==> |t.participants| > 0
    ensures r.Some? ==> r.value * |t.participants| as real == t.totalExpenses
  {
    if |t.participants| > 0 then Some(t.totalExpenses / |t.participants| as real) else None
  }

  /** The form's fields of a stored trip: everything but the id and the running total. */
  function TripFields(t: Trip): TripDraft {
    TripDraft(t.name, t.destination, t.startDate, t.endDate, t.participants, t.currency)
  }

  /** The form's fields of a stored expense: everything but the id. */
  function ExpenseFields(e: Expense): ExpenseDraft {
    ExpenseDraft(e.tripId, e.title, e.amount, e.paidBy, e.splitBetween, e.category, e.date, e.description)
  }

  /** `{...trip, id, totalExpenses: 0}`: the draft's fields, kept as entered, under the given
      id and with nothing charged yet. */
  function NewTrip(draft: TripDraft, id: string): (t: Trip)
    ensures TripFields(t) == draft && t.id == id && t.totalExpenses == 0.0
  {
    Trip(id, draft.name, draft.destination, draft.startDate, draft.endDate, draft.participants, 0.0, draft.currency)
  }

  /** `{...expense, id}`: the draft's fields, kept as entered, under the given id. */
  function NewExpense(draft: ExpenseDraft, id: string): (e: Expense)
    ensures ExpenseFields(e) == draft && e.id == id
  {
    Expense(id, draft.tripId, draft.title, draft.amount, draft.paidBy, draft.splitBetween,
            draft.category, draft.date, draft.description)
  }

  /** The seed trips the dashboard starts with (dates as yyyymmdd keys). */
  const MockTrips: seq<Trip> := [
    Trip("1", "Bali Adventure", "Bali, Indonesia", 20240915, 20240922,
         ["Alice", "Bob", "Charlie", "Diana"], 2450.50, "USD"),
    Trip("2", "Europe Road Trip", "Paris, France", 20241005, 20241020,
         ["Alice", "Eve", "Frank"], 3200.00, "EUR")
  ]

  /** The seed expenses the dashboard starts with. */
  const MockExpenses: seq<Expense> := [
    Expense("1", "1", "Flight Tickets", 800.00, "Alice", ["Alice", "Bob", "Charlie", "Diana"],
            "Transportation", 20240915, Some("Round trip flights to Bali")),
    Expense("2", "1", "Hotel Accommodation", 1200.00, "Bob", ["Alice", "Bob", "Charlie", "Diana"],
            "Accommodation", 20240916, None),
    Expense("3", "1", "Dinner at Beach Restaurant", 150.50, "Charlie", ["Alice", "Bob", "Charlie"],
            "Food", 20240917, None)
  ]

  /** The dashboard's state. */
  class Dashboard {
    var trips: seq<Trip>
    var expenses: seq<Expense>
    var selected: Option<Trip>

    /** The selected trip, if any, is one of the listed trips. */
    ghost predicate Valid()
      reads this
    {
      selected.Some? ==> selected.value in trips
    }

    /** Starts on the seed data with the first seed trip selected. */
    constructor()
      ensures Valid()
      ensures trips == MockTrips && expenses == MockExpenses && selected == Some(MockTrips[0])
    {
      trips := MockTrips;
      expenses := MockExpenses;
      selected := Some(MockTrips[0]);
    }

    /** `selectedTrip?.id`. */
    function SelectedId(): Option<string>
      reads this
    {
      if selected.Some? then Some(selected.value.id) else None
    }

    /** `selectedTripExpenses`. */
    function SelectedTripExpenses(): (r: seq<Expense>)
      reads this
      ensures forall e :: e in r <==> e in expenses && selected.Some? && e.tripId == selected.value.id
    {
      ForTrip(expenses, SelectedId())
    }

    /** `addTrip`: appends the new trip, with total 0 and the given id, and selects it. */
    method AddTrip(draft: TripDraft, id: string)
      requires Valid()
      modifies this
      ensures Valid()
      ensures trips == old(trips) + [NewTrip(draft, id)] && selected == Some(NewTrip(draft, id))
      ensures expenses == old(expenses)
    {
      var t := NewTrip(draft, id);
      trips := trips + [t];
      selected := Some(t);
    }

    /** `addExpense`: appends the expense, charges its amount to the trip carrying its trip
        id (see `ChargedTotals`) and reselects that trip; adding to the selected trip extends
        the shown list by exactly the new expense. */
    method AddExpense(draft: ExpenseDraft, id: string)
      requires Valid()
      modifies this
      ensures Valid()
      ensures expenses == old(expenses) + [NewExpense(draft, id)]
      ensures trips == Charged(old(trips), draft.tripId, draft.amount)
      ensures selected == Reselected(old(trips), old(selected), draft.tripId, draft.amount)
      ensures old(SelectedId()) == Some(draft.tripId) ==>
                SelectedTripExpenses() == old(SelectedTripExpenses()) + [NewExpense(draft, id)]
    {
      var e := NewExpense(draft, id);
      var updated := Charged(trips, draft.tripId, draft.amount);
      var found := FindTrip(updated, draft.tripId);
      ghost var reselected := Reselected(trips, selected, draft.tripId, draft.amount);  // its guarantees hold of `found`
      ForTripConcat(expenses, [e], SelectedId());
      expenses := expenses + [e];
      trips := updated;
      if found.Some? {
        selected := found;
      }
    }
  }

  /** `updatedTrips.find(t => t.id === expense.tripId) || selectedTrip`. When no trip carries
      the id, the trips and the selection stay as they are; otherwise the new selection is one
      of the charged trips and carries the id. */
  function Reselected(trips: seq<Trip>, selected: Option<Trip>, tripId: string, amount: real): (r: Option<Trip>)
    ensures Matches(trips, tripId) == 0 ==> r == selected && Charged(trips, tripId, amount) == trips
    ensures Matches(trips, tripId) > 0 ==> r.Some? && r.value.id == tripId && r.value in Charged(trips, tripId, amount)
  {
    MatchesCharged(trips, tripId, amount);
    var found := FindTrip(Charged(trips, tripId, amount), tripId);
    if found.Some? then found
    else
      ChargedNoMatch(trips, tripId, amount);
      selected
  }

  /** Charging keeps every id, so it keeps the number of trips with a given id. */
  lemma {:induction false} MatchesCharged(trips: seq<Trip>, tripId: string, amount: real)
    ensures Matches(Charged(trips, tripId, amount), tripId) == Matches(trips, tripId)
  {
    if trips != [] {
      MatchesCharged(trips[1..], tripId, amount);
      assert Charged(trips, tripId, amount)[1..] == Charged(trips[1..], tripId, amount);
    }
  }
}
