/** The trip form of src/components/CreateTripDialog.tsx: the participant roster that
    `addParticipant` and `removeParticipant` edit, the currency choice, and the submission
    guard. The roster always holds "You" and never holds a name twice. */
module TripForm {
  import opened Wrappers
  import opened Seqs
  import opened Text
  import opened TripData

  /** The creator's own entry, which cannot be removed. */
  const Me: Person := "You"

  /** The currency a fresh form proposes. */
  const DefaultCurrency: string := "USD"

  /** `addParticipant`'s update of the roster, given the trimmed input: the name is appended
      when it is non-empty and not yet listed; otherwise the roster stays as it is. */
  function Added(roster: seq<Person>, name: string): (r: seq<Person>)
    ensures roster <= r && |r| <= |roster| + 1
    ensures |r| == |roster| + 1 <==> name != "" && name !in roster
    ensures |r| == |roster| + 1 ==> r[|roster|] == name
    ensures NoDup(roster) ==> NoDup(r)
  {
    if name != "" && name !in roster then roster + [name] else roster
  }

  lemma AddedKeepsValid(roster: seq<Person>, name: string)
    requires Me in roster && NoDup(roster)
    ensures Me in Added(roster, name) && NoDup(Added(roster, name))
  {
  }

  /** `removeParticipant`'s update: "You" stays; any other name loses every occurrence, and
      no other name gains or loses one. */
  function Removed(roster: seq<Person>, p: Person): (r: seq<Person>)
    ensures p == Me ==> r == roster
    ensures p != Me ==> r == RemoveAll(roster, p)
    ensures p != Me ==> p !in r
    ensures forall q | q != p :: Count(r, q) == Count(roster, q)
    ensures Me in roster ==> Me in r
    ensures NoDup(roster) ==> NoDup(r)
  {
    if p != Me then
      RemoveAllNoDupIf(roster, p);
      assert Count(RemoveAll(roster, p), Me) == Count(roster, Me);
      RemoveAll(roster, p)
    else roster
  }

  lemma RemoveAllNoDupIf(roster: seq<Person>, p: Person)
    ensures NoDup(roster) ==> NoDup(RemoveAll(roster, p))
  {
    if NoDup(roster) {
      RemoveAllNoDup(roster, p);
    }
  }

  /** What `handleSubmit` hands to `onAddTrip`, or `None` when its guard returns early. */
  function TripSubmission(name: string, destination: string, startDate: Option<int>, endDate: Option<int>,
                          participants: seq<Person>, currency: string): (r: Option<TripDraft>)
    ensures r.Some? <==>
              name != "" && destination != "" && startDate.Some? && endDate.Some? && participants != []
    ensures r.Some? ==>
              && r.value.name == name && r.value.destination == destination
              && r.value.startDate == startDate.value && r.value.endDate == endDate.value
              && r.value.participants == participants && r.value.currency == currency
  {
    if name == "" || destination == "" || startDate.None? || endDate.None? || |participants| == 0
    then None
    else Some(TripDraft(name, destination, startDate.value, endDate.value, participants, currency))
  }

  /** The dialog's state. */
  class Form {
    var name: string
    var destination: string
    var startDate: Option<int>
    var endDate: Option<int>
    var currency: string
    var participants: seq<Person>
    var newParticipant: string

    /** "You" is listed and no name is listed twice. */
    ghost predicate Valid()
      reads this
    {
      Me in participants && NoDup(participants)
    }

    /** The state a fresh form, and `resetForm`, leaves. */
    ghost predicate IsBlank()
      reads this
    {
      && name == "" && destination == "" && startDate == None && endDate == None
      && currency == DefaultCurrency && participants == [Me] && newParticipant == ""
    }

    constructor()
      ensures Valid() && IsBlank()
    {
      name, destination := "", "";
      startDate, endDate := None, None;
      currency := DefaultCurrency;
      participants := [Me];
      newParticipant := "";
    }

    /** `resetForm`. */
    method ResetForm()
      modifies this
      ensures Valid() && IsBlank()
    {
      name, destination := "", "";
      startDate, endDate := None, None;
      currency := DefaultCurrency;
      participants := [Me];
      newParticipant := "";
    }

    /** `addParticipant`: the input is trimmed; the input box is cleared only when a name
        was added. */
    method AddParticipant()
      requires Valid()
      modifies this
      ensures Valid()
      ensures participants == Added(old(participants), Trim(old(newParticipant)))
      ensures newParticipant == if |participants| > |old(participants)| then "" else old(newParticipant)
      ensures name == old(name) && destination == old(destination) && currency == old(currency)
      ensures startDate == old(startDate) && endDate == old(endDate)
    {
      var trimmed := Trim(newParticipant);
      if trimmed != "" && trimmed !in participants {
        AddedKeepsValid(participants, trimmed);
        participants := Added(participants, trimmed);
        newParticipant := "";
      }
    }

    /** `removeParticipant`. */
    method RemoveParticipant(p: Person)
      requires Valid()
      modifies this
      ensures Valid()
      ensures participants == Removed(old(participants), p)
      ensures name == old(name) && destination == old(destination) && currency == old(currency)
      ensures startDate == old(startDate) && endDate == old(endDate)
      ensures newParticipant == old(newParticipant)
    {
      if p != Me {
        participants := Removed(participants, p);
      }
    }

    /** `handleSubmit`: an emitted trip always lists "You"; after it the form is blank, and
        when nothing is emitted nothing changes. */
    method Submit() returns (emitted: Option<TripDraft>)
      requires Valid()
      modifies this
      ensures Valid()
      ensures emitted == TripSubmission(old(name), old(destination), old(startDate), old(endDate),
                                        old(participants), old(currency))
      ensures emitted.Some? ==> Me in emitted.value.participants && IsBlank()
      ensures emitted.None? ==> unchanged(this)
    {
      emitted := TripSubmission(name, destination, startDate, endDate, participants, currency);
      if emitted.Some? {
        ResetForm();
      }
    }
  }

  /** Since the roster always lists "You", the guard's roster check never fires: a valid
      form submits exactly when name, destination and both dates are filled in. */
  lemma SubmitNeedsOnlyFields(name: string, destination: string, startDate: Option<int>,
                              endDate: Option<int>, participants: seq<Person>, currency: string)
    requires Me in participants
    ensures TripSubmission(name, destination, startDate, endDate, participants, currency).Some?
            <==> name != "" && destination != "" && startDate.Some? && endDate.Some?
  {
    assert participants != [];
  }
}
