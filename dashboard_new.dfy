/** The database-backed dashboard of src/components/TripDashboardNew.tsx: the adapter that
    turns stored expense rows into the records the expense list and the balance summary read,
    the selection handlers, the per-person figure, and the forwarding of a new expense to
    the store. */
module DashboardNew {
  import opened Wrappers
  import opened TripData
  import Balances

  /** A stored trip row, as far as this component reads it. */
  datatype StoredTrip = StoredTrip(id: string, name: string, currency: string, location: string, totalAmount: real)

  /** A stored participant row. */
  datatype StoredParticipant = StoredParticipant(id: string, tripId: string, name: string)

  /** A stored expense row; `createdAt` is a date key. */
  datatype StoredExpense = StoredExpense(
    id: string,
    tripId: string,
    description: string,
    amount: real,
    paidBy: string,
    category: string,
    createdAt: int)

  /** The fallback payer name. */
  const UnknownPayer: Person := "Unknown"

  /** `selectedTripParticipants.find(p => p.id === id)`. */
  function FindParticipant(people: seq<StoredParticipant>, id: string): (r: Option<StoredParticipant>)
    ensures r.None? <==> forall k | 0 <= k < |people| :: people[k].id != id
    ensures r.Some? ==> exists k | 0 <= k < |people| ::
              people[k] == r.value && r.value.id == id && forall i | 0 <= i < k :: people[i].id != id
  {
    if people == [] then None
    else if people[0].id == id then Some(people[0])
    else
      var r := FindParticipant(people[1..], id);
      if r.Some? then
        var k :| 0 <= k < |people[1..]| && people[1..][k] == r.value && r.value.id == id
                 && forall i | 0 <= i < k :: people[1..][i].id != id;
        assert people[k + 1] == r.value && forall i | 0 <= i < k + 1 :: people[i].id != id;
        r
      else r
  }

  /** `payer?.name || 'Unknown'`: the name of the first participant with the payer id, or
      "Unknown" when there is none or that name is empty. */
  function PayerName(people: seq<StoredParticipant>, paidBy: string): (r: Person)
    ensures r != ""
    ensures r == UnknownPayer || exists k | 0 <= k < |people| :: people[k].id == paidBy && people[k].name == r
    ensures (forall k | 0 <= k < |people| :: people[k].id != paidBy) ==> r == UnknownPayer
  {
    var payer := FindParticipant(people, paidBy);
    if payer.Some? && payer.value.name != "" then payer.value.name else UnknownPayer
  }

  /** `participants.map(p => p.name)`. */
  function Names(people: seq<StoredParticipant>): (r: seq<Person>)
    ensures |r| == |people| && forall k | 0 <= k < |people| :: r[k] == people[k].name
  {
    if people == [] then [] else [people[0].name] + Names(people[1..])
  }

  /** One adapted expense: the description is both title and description, the payer id is
      resolved to a name that is never empty, and the split is every participant once per
      row, so with no participants it is empty. */
  function Format(e: StoredExpense, people: seq<StoredParticipant>): (r: Expense)
    ensures r.id == e.id && r.tripId == e.tripId && r.amount == e.amount && r.category == e.category
    ensures r.title == e.description && r.description == Some(e.description)
    ensures r.paidBy != ""
    ensures |r.splitBetween| == |people| && forall k | 0 <= k < |people| :: r.splitBetween[k] == people[k].name
  {
    Expense(e.id, e.tripId, e.description, e.amount, PayerName(people, e.paidBy), Names(people),
            e.category, e.createdAt, Some(e.description))
  }

  /** `formattedExpenses`: one adapted expense per stored row, in the same order; every one of
      them is split among all participants. */
  function FormattedExpenses(stored: seq<StoredExpense>, people: seq<StoredParticipant>): (r: seq<Expense>)
    ensures |r| == |stored|
    ensures forall k | 0 <= k < |stored| ::
              && r[k].id == stored[k].id && r[k].tripId == stored[k].tripId
              && r[k].amount == stored[k].amount && r[k].category == stored[k].category
              && r[k].title == stored[k].description && r[k].description == Some(stored[k].description)
              && r[k].paidBy == PayerName(people, stored[k].paidBy)
              && r[k].splitBetween == Names(people)
  {
    if stored == [] then [] else [Format(stored[0], people)] + FormattedExpenses(stored[1..], people)
  }

  /** With at least one participant every adapted split is non-empty, and every split member
      is a participant: the balance summary sees each expense shared by the whole roster. */
  lemma FormattedSplits(stored: seq<StoredExpense>, people: seq<StoredParticipant>)
    requires |people| > 0
    ensures forall e | e in FormattedExpenses(stored, people) ::
              |e.splitBetween| == |people| && forall x | x in e.splitBetween :: x in Names(people)
  {
    var r := FormattedExpenses(stored, people);
    forall e | e in r
      ensures |e.splitBetween| == |people| && forall x | x in e.splitBetween :: x in Names(people)
    {
      var k :| 0 <= k < |r| && r[k] == e;
    }
  }

  /** A payer id that matches no participant is shown as "Unknown". */
  lemma UnmatchedPayerIsUnknown(stored: seq<StoredExpense>, people: seq<StoredParticipant>, k: nat)
    requires k < |stored|
    requires forall i | 0 <= i < |people| :: people[i].id != stored[k].paidBy
    ensures FormattedExpenses(stored, people)[k].paidBy == UnknownPayer
  {
  }

  /** An expense whose payer id matches no participant brings an extra "Unknown" person into
      the balance summary's roster. */
  lemma UnknownPayerInRoster(stored: seq<StoredExpense>, people: seq<StoredParticipant>, k: nat)
    requires k < |stored|
    requires forall i | 0 <= i < |people| :: people[i].id != stored[k].paidBy
    ensures UnknownPayer in Balances.Roster(Names(people), FormattedExpenses(stored, people))
  {
    var es := FormattedExpenses(stored, people);
    assert es[k] in es && es[k].paidBy == UnknownPayer;
  }

  /** `trips.find(t => t.id !== tripId)`: the first trip with a different id. */
  function FirstOther(trips: seq<StoredTrip>, tripId: string): (r: Option<StoredTrip>)
    ensures r.None? <==> forall k | 0 <= k < |trips| :: trips[k].id == tripId
    ensures r.Some? ==> exists k | 0 <= k < |trips| ::
              trips[k] == r.value && r.value.id != tripId && forall i | 0 <= i < k :: trips[i].id == tripId
  {
    if trips == [] then None
    else if trips[0].id != tripId then Some(trips[0])
    else
      var r := FirstOther(trips[1..], tripId);
      if r.Some? then
        var k :| 0 <= k < |trips[1..]| && trips[1..][k] == r.value && r.value.id != tripId
                 && forall i | 0 <= i < k :: trips[1..][i].id == tripId;
        assert trips[k + 1] == r.value && forall i | 0 <= i < k + 1 :: trips[i].id == tripId;
        r
      else r
  }

  /** The per-person stat `total_amount / Math.max(participantCount, 1)`: never a division by
      zero; with no participants it shows the whole total. */
  function PerPerson(totalAmount: real, participantCount: nat): (r: real)
    ensures participantCount > 0 ==> r * participantCount as real == totalAmount
    ensures participantCount == 0 ==> r == totalAmount
  {
    totalAmount / (if participantCount > 1 then participantCount else 1) as real
  }

  /** The record `handleAddExpense` hands to the store's `addExpense`. */
  datatype NewExpense = NewExpense(
    tripId: string,
    title: string,
    amount: real,
    paidBy: Person,
    category: string,
    description: Option<string>)

  /** `handleAddExpense`'s forwarding: tripId, title, amount, paidBy, category and description
      are passed on as they are. */
  function Forwarded(d: ExpenseDraft): (r: NewExpense)
    ensures r.tripId == d.tripId && r.title == d.title && r.amount == d.amount
    ensures r.paidBy == d.paidBy && r.category == d.category && r.description == d.description
  {
    NewExpense(d.tripId, d.title, d.amount, d.paidBy, d.category, d.description)
  }

  /** The split and the date the form collected are dropped: drafts that differ only in
      those forward the same record. */
  lemma ForwardedDropsSplitAndDate(d: ExpenseDraft, split: seq<Person>, date: int)
    ensures Forwarded(d.(splitBetween := split, date := date)) == Forwarded(d)
  {
  }

  /** The component's selection state. */
  class Selection {
    var selected: Option<StoredTrip>

    constructor()
      ensures selected == None
    {
      selected := None;
    }

    /** `handleTripSelect`. */
    method HandleTripSelect(trip: StoredTrip)
      modifies this
      ensures selected == Some(trip)
    {
      selected := Some(trip);
    }

    /** `handleTripDelete`: `trips` is the list as it was before the deletion. Deleting the
        selected trip selects the first other trip, or nothing; deleting another trip keeps
        the selection. */
    method HandleTripDelete(trips: seq<StoredTrip>, tripId: string)
      modifies this
      ensures old(selected).Some? && old(selected).value.id == tripId ==> selected == FirstOther(trips, tripId)
      ensures old(selected).None? || old(selected).value.id != tripId ==> selected == old(selected)
      ensures selected.Some? ==> selected.value.id != tripId
    {
      if selected.Some? && selected.value.id == tripId {
        selected := FirstOther(trips, tripId);
      }
    }

    /** `handleAddTrip`: `created` is what the store's `createTrip` returned. */
    method HandleAddTrip(created: Option<StoredTrip>)
      modifies this
      ensures selected == if created.Some? then created else old(selected)
    {
      if created.Some? {
        selected := created;
      }
    }
  }
}
