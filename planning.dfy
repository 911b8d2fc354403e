/** The day-by-day itinerary of src/components/TripPlanning.tsx: adding a placeholder activity
    to a day, removing an activity, appending a day, the "Activities" count, and the icon and
    colour of each activity type. */
module Planning {
  import opened Wrappers

  /** The four activity types; `Sightseeing` is the type the source calls `'activity'`. */
  datatype Kind = Transport | Accommodation | Sightseeing | Meal

  datatype Activity = Activity(
    id: string,
    time: string,
    title: string,
    location: string,
    kind: Kind,
    description: Option<string>,
    estimatedCost: Option<real>)

  /** One day of the itinerary; `date` is a date key. */
  datatype Day = Day(id: string, day: int, date: int, activities: seq<Activity>)

  /** `getActivityIcon`: a different emoji for each type, one code point, possibly followed
      by the emoji presentation selector U+FE0F. */
  function Icon(k: Kind): (s: string)
    ensures 1 <= |s| <= 2 && (|s| == 2 ==> s[1] == '\U{FE0F}')
  {
    match k
    case Transport => "\U{2708}\U{FE0F}"
    case Accommodation => "\U{1F3E8}"
    case Sightseeing => "\U{1F3AF}"
    case Meal => "\U{1F37D}\U{FE0F}"
  }

  /** `getActivityColor`: a different badge class for each type, always a `bg-` background
      class followed by white text. */
  function Color(k: Kind): (s: string)
    ensures |s| > 14 && s[..3] == "bg-" && s[|s| - 11..] == " text-white"
  {
    match k
    case Transport => "bg-ocean text-white"
    case Accommodation => "bg-sunset text-white"
    case Sightseeing => "bg-mint text-white"
    case Meal => "bg-coral text-white"
  }

  /** Both lookups tell the four types apart. */
  lemma IconAndColorDistinct(a: Kind, b: Kind)
    requires a != b
    ensures Icon(a) != Icon(b) && Color(a) != Color(b)
  {
    match a
    case Transport => assert Icon(a)[0] == '\U{2708}' && Color(a)[3] == 'o';
    case Accommodation => assert Icon(a)[0] == '\U{1F3E8}' && Color(a)[3] == 's';
    case Sightseeing => assert Icon(a)[0] == '\U{1F3AF}' && Color(a)[3] == 'm';
    case Meal => assert Icon(a)[0] == '\U{1F37D}' && Color(a)[3] == 'c';
  }

  /** The placeholder `addActivity` inserts; `now` is the `Date.now()` stamp in its id. It is
      a sightseeing entry without a cost whose id is the stamp behind an `activity-` prefix. */
  function NewActivity(now: string): (a: Activity)
    ensures a.kind == Sightseeing && a.estimatedCost == None
    ensures |a.id| == 9 + |now| && a.id[..9] == "activity-" && a.id[9..] == now
  {
    Activity("activity-" + now, "12:00", "New Activity", "To be determined", Sightseeing,
             Some("Click to edit details"), None)
  }

  /** Placeholders added at different stamps have different ids. */
  lemma NewActivityIds(now: string, later: string)
    requires now != later
    ensures NewActivity(now).id != NewActivity(later).id
  {
    var a := NewActivity(now);
    var b := NewActivity(later);
    assert a.id[9..] != b.id[9..];
  }

  /** `activities.filter(activity => activity.id !== activityId)`. */
  function WithoutId(acts: seq<Activity>, activityId: string): (r: seq<Activity>)
    ensures |r| <= |acts|
    ensures forall a :: a in r <==> a in acts && a.id != activityId
  {
    if acts == [] then []
    else
      var rest := WithoutId(acts[1..], activityId);
      assert forall a :: a in acts <==> a == acts[0] || a in acts[1..];
      if acts[0].id != activityId then [acts[0]] + rest else rest
  }

  lemma {:induction false} WithoutIdConcat(a: seq<Activity>, b: seq<Activity>, activityId: string)
    ensures WithoutId(a + b, activityId) == WithoutId(a, activityId) + WithoutId(b, activityId)
  {
    if a == [] {
      assert a + b == b;
    } else {
      assert (a + b)[0] == a[0] && (a + b)[1..] == a[1..] + b;
      WithoutIdConcat(a[1..], b, activityId);
    }
  }

  lemma {:induction false} WithoutAbsentId(acts: seq<Activity>, activityId: string)
    requires forall a | a in acts :: a.id != activityId
    ensures WithoutId(acts, activityId) == acts
  {
    if acts != [] {
      WithoutAbsentId(acts[1..], activityId);
      assert acts == [acts[0]] + acts[1..];
    }
  }

  /** `addActivity`'s `prev.map`: the day with the id gets the activity appended; every other
      day is unchanged, and the number of days stays. */
  function WithActivity(days: seq<Day>, dayId: string, a: Activity): (r: seq<Day>)
    ensures |r| == |days|
    ensures forall k | 0 <= k < |days| ::
              && (days[k].id == dayId ==> r[k] == days[k].(activities := days[k].activities + [a]))
              && (days[k].id != dayId ==> r[k] == days[k])
  {
    if days == [] then []
    else
      var d := days[0];
      [if d.id == dayId then d.(activities := d.activities + [a]) else d] + WithActivity(days[1..], dayId, a)
  }

  /** `removeActivity`'s `prev.map`: the day with the id loses the activities with the given
      id, the rest of its activities keep their order, and every other day is unchanged. */
  function WithoutActivity(days: seq<Day>, dayId: string, activityId: string): (r: seq<Day>)
    ensures |r| == |days|
    ensures forall k | 0 <= k < |days| ::
              && (days[k].id == dayId ==> r[k] == days[k].(activities := WithoutId(days[k].activities, activityId)))
              && (days[k].id != dayId ==> r[k] == days[k])
  {
    if days == [] then []
    else
      var d := days[0];
      [if d.id == dayId then d.(activities := WithoutId(d.activities, activityId)) else d]
        + WithoutActivity(days[1..], dayId, activityId)
  }

  /** An unknown day id leaves the itinerary as it is, for both edits. */
  lemma UnknownDay(days: seq<Day>, dayId: string, a: Activity, activityId: string)
    requires forall k | 0 <= k < |days| :: days[k].id != dayId
    ensures WithActivity(days, dayId, a) == days
    ensures WithoutActivity(days, dayId, activityId) == days
  {
  }

  /** Removing the placeholder just added (its id being new to that day) gives back the
      original itinerary. */
  lemma AddThenRemove(days: seq<Day>, dayId: string, now: string)
    requires forall k, a | 0 <= k < |days| && days[k].id == dayId && a in days[k].activities :: a.id != NewActivity(now).id
    ensures WithoutActivity(WithActivity(days, dayId, NewActivity(now)), dayId, NewActivity(now).id) == days
  {
    var a := NewActivity(now);
    var r := WithoutActivity(WithActivity(days, dayId, a), dayId, a.id);
    forall k | 0 <= k < |days|
      ensures r[k] == days[k]
    {
      if days[k].id == dayId {
        WithoutIdConcat(days[k].activities, [a], a.id);
        WithoutAbsentId(days[k].activities, a.id);
        assert WithoutId([a], a.id) == [];
      }
    }
  }

  /** `Math.max(...itinerary.map(d => d.day))`. */
  function MaxDay(days: seq<Day>): (m: int)
    requires days != []
    ensures forall k | 0 <= k < |days| :: days[k].day <= m
    ensures exists k | 0 <= k < |days| :: days[k].day == m
  {
    if |days| == 1 then days[0].day
    else
      var m := MaxDay(days[1..]);
      assert exists k | 1 <= k < |days| :: days[k].day == m by {
        var j :| 0 <= j < |days[1..]| && days[1..][j].day == m;
        assert days[j + 1].day == m;
      }
      if days[0].day > m then days[0].day else m
  }

  /** `addDay`'s update: one empty day appended, numbered one past the highest day number;
      `now` is the `Date.now()` stamp in its id and `date` the computed date key. */
  function WithDay(days: seq<Day>, now: string, date: int): (r: seq<Day>)
    requires days != []
    ensures |r| == |days| + 1 && r[..|days|] == days
    ensures r[|days|].activities == [] && r[|days|].date == date && r[|days|].id == "day-" + now
    ensures forall k | 0 <= k < |days| :: days[k].day < r[|days|].day
  {
    days + [Day("day-" + now, MaxDay(days) + 1, date, [])]
  }

  /** Day numbers are pairwise distinct. */
  ghost predicate DistinctDayNumbers(days: seq<Day>) {
    forall i, j | 0 <= i < j < |days| :: days[i].day != days[j].day
  }

  /** Appending a day keeps the day numbers distinct. */
  lemma WithDayDistinct(days: seq<Day>, now: string, date: int)
    requires days != [] && DistinctDayNumbers(days)
    ensures DistinctDayNumbers(WithDay(days, now, date))
  {
    var r := WithDay(days, now, date);
    forall i, j | 0 <= i < j < |r|
      ensures r[i].day != r[j].day
    {
      if j < |days| {
        assert r[i] == days[i] && r[j] == days[j];
      } else {
        assert r[i] == days[i];
      }
    }
  }

  /** `day.activities.filter(a => a.type === 'activity').length`: at most one per activity,
      and zero exactly when no activity of the day is sightseeing. */
  function SightCount(acts: seq<Activity>): (n: nat)
    ensures n <= |acts|
    ensures n == 0 <==> forall k | 0 <= k < |acts| :: acts[k].kind != Sightseeing
  {
    if acts == [] then 0
    else
      var rest := SightCount(acts[1..]);
      assert forall k | 1 <= k < |acts| :: acts[k] == acts[1..][k - 1];
      (if acts[0].kind == Sightseeing then 1 else 0) + rest
  }

  /** The "Activities" stat: `itinerary.reduce((sum, day) => sum + <that count>, 0)`. It is zero
      exactly when no day holds a sightseeing activity. */
  function ActivityCount(days: seq<Day>): (n: nat)
    ensures n == 0 <==> forall k | 0 <= k < |days| :: SightCount(days[k].activities) == 0
  {
    if days == [] then 0
    else
      var init := days[..|days| - 1];
      assert forall k | 0 <= k < |init| :: init[k] == days[k];
      ActivityCount(init) + SightCount(days[|days| - 1].activities)
  }

  lemma {:induction false} SightCountConcat(a: seq<Activity>, b: seq<Activity>)
    ensures SightCount(a + b) == SightCount(a) + SightCount(b)
  {
    if a == [] {
      assert a + b == b;
    } else {
      assert (a + b)[0] == a[0] && (a + b)[1..] == a[1..] + b;
      SightCountConcat(a[1..], b);
    }
  }

  /** The number of days with the given id. */
  function DayMatches(days: seq<Day>, dayId: string): nat {
    if days == [] then 0 else DayMatches(days[..|days| - 1], dayId) + (if days[|days| - 1].id == dayId then 1 else 0)
  }

  /** Adding the placeholder raises the stat by one per day carrying the id: by one for a
      known day, not at all for an unknown one. */
  lemma {:induction false} ActivityCountWithActivity(days: seq<Day>, dayId: string, now: string)
    ensures ActivityCount(WithActivity(days, dayId, NewActivity(now))) == ActivityCount(days) + DayMatches(days, dayId)
  {
    if days != [] {
      var a := NewActivity(now);
      var n := |days| - 1;
      var r := WithActivity(days, dayId, a);
      ActivityCountWithActivity(days[..n], dayId, now);
      WithActivityPrefix(days, dayId, a, n);
      LastDayCount(days[n], r[n], dayId, a);
      assert ActivityCount(r) == ActivityCount(r[..n]) + SightCount(r[n].activities);
    }
  }

  lemma WithActivityPrefix(days: seq<Day>, dayId: string, a: Activity, n: nat)
    requires n <= |days|
    ensures WithActivity(days, dayId, a)[..n] == WithActivity(days[..n], dayId, a)
  {
    var r := WithActivity(days, dayId, a);
    var r' := WithActivity(days[..n], dayId, a);
    assert forall k | 0 <= k < n :: r[k] == r'[k];
  }

  /** The placeholder, a sightseeing activity, counts once on the day that receives it. */
  lemma LastDayCount(d: Day, d': Day, dayId: string, a: Activity)
    requires a.kind == Sightseeing
    requires d' == if d.id == dayId then d.(activities := d.activities + [a]) else d
    ensures SightCount(d'.activities) == SightCount(d.activities) + (if d.id == dayId then 1 else 0)
  {
    if d.id == dayId {
      SightCountConcat(d.activities, [a]);
      assert SightCount([a]) == 1;
    }
  }

  /** Appending a day leaves the stat unchanged. */
  lemma ActivityCountWithDay(days: seq<Day>, now: string, date: int)
    requires days != []
    ensures ActivityCount(WithDay(days, now, date)) == ActivityCount(days)
  {
    var r := WithDay(days, now, date);
    assert r[..|r| - 1] == days;
  }

  /** The seed itinerary: two days. */
  const MockItinerary: seq<Day> := [
    Day("1", 1, 20240915, [
      Activity("1", "06:00", "Flight Departure", "JFK Airport", Transport,
               Some("Flight to Bali via Singapore"), None),
      Activity("2", "20:00", "Arrival & Hotel Check-in", "Ubud Villa Resort", Accommodation,
               Some("Check into our beautiful villa"), None)]),
    Day("2", 2, 20240916, [
      Activity("3", "09:00", "Breakfast at Villa", "Ubud Villa Resort", Meal, None, Some(40.0)),
      Activity("4", "11:00", "Ubud Rice Terraces Tour", "Tegallalang Rice Terraces", Sightseeing,
               Some("Guided tour of the famous rice terraces"), Some(120.0)),
      Activity("5", "18:00", "Traditional Balinese Dinner", "Locavore Restaurant", Meal, None, Some(180.0))])
  ]

  /** The planner's state. */
  class Planner {
    var itinerary: seq<Day>

    /** The itinerary is never empty, so `addDay` always has a highest day number. */
    ghost predicate Valid()
      reads this
    {
      itinerary != []
    }

    constructor()
      ensures Valid() && itinerary == MockItinerary
    {
      itinerary := MockItinerary;
    }

    /** `addActivity`. */
    method AddActivity(dayId: string, now: string)
      modifies this
      ensures itinerary == WithActivity(old(itinerary), dayId, NewActivity(now))
      ensures old(Valid()) ==> Valid()
    {
      itinerary := WithActivity(itinerary, dayId, NewActivity(now));
    }

    /** `removeActivity`. */
    method RemoveActivity(dayId: string, activityId: string)
      modifies this
      ensures itinerary == WithoutActivity(old(itinerary), dayId, activityId)
      ensures old(Valid()) ==> Valid()
    {
      itinerary := WithoutActivity(itinerary, dayId, activityId);
    }

    /** `addDay`. */
    method AddDay(now: string, date: int)
      requires Valid()
      modifies this
      ensures Valid()
      ensures itinerary == WithDay(old(itinerary), now, date)
    {
      itinerary := WithDay(itinerary, now, date);
    }
  }
}
