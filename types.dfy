/** The records the components pass around. Dates are integer keys (their string and
    calendar form is not modelled); amounts are exact reals. */
module TripData {
  import opened Wrappers

  /** Participants are identified by their display name. */
  type Person = string

  /** An expense as the in-memory dashboard, the expense list and the balance summary see it. */
  datatype Expense = Expense(
    id: string,
    tripId: string,
    title: string,
    amount: real,
    paidBy: Person,
    splitBetween: seq<Person>,
    category: string,
    date: int,
    description: Option<string>)

  /** The expense the expense form hands to `onAddExpense`: an `Expense` without an id. */
  datatype ExpenseDraft = ExpenseDraft(
    tripId: string,
    title: string,
    amount: real,
    paidBy: Person,
    splitBetween: seq<Person>,
    category: string,
    date: int,
    description: Option<string>)

  /** A trip of the in-memory dashboard. */
  datatype Trip = Trip(
    id: string,
    name: string,
    destination: string,
    startDate: int,
    endDate: int,
    participants: seq<Person>,
    totalExpenses: real,
    currency: string)

  /** The trip the trip form hands to `onAddTrip`: a `Trip` without id and total. */
  datatype TripDraft = TripDraft(
    name: string,
    destination: string,
    startDate: int,
    endDate: int,
    participants: seq<Person>,
    currency: string)
}
