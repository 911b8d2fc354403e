/** The expense form of src/components/CreateExpenseDialog.tsx: its field state, the split
    checklist that `toggleParticipant` edits, the per-person preview, and the submission
    guard that refuses incomplete input and an empty split. */
module ExpenseForm {
  import opened Wrappers
  import opened Seqs
  import opened TripData

  /** `toggleParticipant`'s update of the split: a listed name is dropped (every occurrence
      of it), an unlisted one is appended. No other name gains or loses an occurrence, and
      with the toggled name filtered out the list is the same as before, so the others keep
      their order. */
  function Toggle(split: seq<Person>, p: Person): (r: seq<Person>)
    ensures p in split ==> r == RemoveAll(split, p)
    ensures p !in split ==> r == split + [p]
    ensures p in r <==> p !in split
    ensures forall q | q != p :: Count(r, q) == Count(split, q)
    ensures RemoveAll(r, p) == RemoveAll(split, p)
  {
    if p in split then
      RemoveAllAbsent(RemoveAll(split, p), p);
      RemoveAll(split, p)
    else
      RemoveAllConcat(split, [p], p);
      RemoveAllAbsent(split, p);
      assert forall q | q != p :: Count(split + [p], q) == Count(split, q) by {
        forall q | q != p ensures Count(split + [p], q) == Count(split, q) {
          CountConcat(split, [p], q);
        }
      }
      split + [p]
  }

  /** Ticking an unticked name and then unticking it gives back the original split. */
  lemma ToggleTwice(split: seq<Person>, p: Person)
    requires p !in split
    ensures Toggle(Toggle(split, p), p) == split
  {
    RemoveAllConcat(split, [p], p);
    RemoveAllAbsent(split, p);
  }

  /** `amountPerPerson`: the parsed amount (0 for an empty field) shared equally by the
      split, or 0 when nobody is ticked. */
  function AmountPerPerson(amount: real, split: seq<Person>): (r: real)
    ensures |split| > 0 ==> r * |split| as real == amount
    ensures split == [] ==> r == 0.0
  {
    if |split| > 0 then amount / |split| as real else 0.0
  }

  /** The form's inputs as `handleSubmit` reads them. The amount is the text typed in the
      field; its parsed value is given separately. */
  datatype Fields = Fields(
    title: string,
    amount: string,
    paidBy: Person,
    category: string,
    description: string,
    date: int,
    splitBetween: seq<Person>)

  /** What `handleSubmit` hands to `onAddExpense`, or `None` when its guard returns early.
      An emitted expense always has a non-empty split and carries the parsed amount; an empty
      description becomes an absent one. */
  function Submission(tripId: Option<string>, f: Fields, parsedAmount: real): (r: Option<ExpenseDraft>)
    ensures r.Some? <==>
              && tripId.Some? && tripId.value != "" && f.title != "" && f.amount != ""
              && f.paidBy != "" && f.category != "" && f.splitBetween != []
    ensures r.Some? ==>
              && r.value.splitBetween == f.splitBetween && |r.value.splitBetween| > 0
              && r.value.tripId == tripId.value && r.value.title == f.title
              && r.value.amount == parsedAmount && r.value.paidBy == f.paidBy
              && r.value.category == f.category && r.value.date == f.date
              && (r.value.description == None <==> f.description == "")
              && (r.value.description.Some? ==> r.value.description.value == f.description)
  {
    if tripId.None? || tripId.value == "" || f.title == "" || f.amount == "" || f.paidBy == ""
       || f.category == "" || |f.splitBetween| == 0
    then None
    else
      Some(ExpenseDraft(tripId.value, f.title, parsedAmount, f.paidBy, f.splitBetween, f.category,
                        f.date, if f.description == "" then None else Some(f.description)))
  }

  /** The state `resetForm` leaves: empty text fields, today's date, everyone ticked. */
  function Blank(participants: seq<Person>, today: int): Fields {
    Fields("", "", "", "", "", today, participants)
  }

  /** The dialog's state. `tripId` and `participants` are the component's props. */
  class Form {
    const tripId: Option<string>
    const participants: seq<Person>
    var title: string
    var amount: string
    var paidBy: Person
    var category: string
    var description: string
    var date: int
    var splitBetween: seq<Person>

    function Current(): Fields
      reads this
    {
      Fields(title, amount, paidBy, category, description, date, splitBetween)
    }

    /** The initial state: the same as after `resetForm`. */
    constructor(tripId: Option<string>, participants: seq<Person>, today: int)
      ensures this.tripId == tripId && this.participants == participants
      ensures Current() == Blank(participants, today)
    {
      this.tripId := tripId;
      this.participants := participants;
      title, amount, paidBy, category, description := "", "", "", "", "";
      date := today;
      splitBetween := participants;
    }

    /** `resetForm`: clears the text fields, sets the date to today and ticks everyone. */
    method ResetForm(today: int)
      modifies this
      ensures Current() == Blank(participants, today)
    {
      title, amount, paidBy, category, description := "", "", "", "", "";
      date := today;
      splitBetween := participants;
    }

    /** `toggleParticipant`: only the split changes. */
    method ToggleParticipant(p: Person)
      modifies this
      ensures splitBetween == Toggle(old(splitBetween), p)
      ensures Current() == old(Current()).(splitBetween := splitBetween)
    {
      if p in splitBetween {
        splitBetween := RemoveAll(splitBetween, p);
      } else {
        splitBetween := splitBetween + [p];
      }
    }

    /** `handleSubmit`: when the guard passes, the expense is emitted and the form reset;
        otherwise nothing is emitted and nothing changes. */
    method Submit(parsedAmount: real, today: int) returns (emitted: Option<ExpenseDraft>)
      modifies this
      ensures emitted == Submission(tripId, old(Current()), parsedAmount)
      ensures emitted.Some? ==> Current() == Blank(participants, today)
      ensures emitted.None? ==> Current() == old(Current())
    {
      emitted := Submission(tripId, Current(), parsedAmount);
      if emitted.Some? {
        ResetForm(today);
      }
    }
  }
}
