/** Working hours per weekday, as edited in the profile: the table of days
    both editors list, and the time-field update both editors perform (the
    two components carry identical copies of the handler). */
module WorkingHours {
  import opened Wrappers
  import opened Text

  datatype Day = Monday | Tuesday | Wednesday | Thursday | Friday | Saturday | Sunday

  /** One day's opening and closing times, as `HH:MM` text or empty. */
  datatype DayHours = DayHours(start: string, end: string)

  /** The two inputs of a day. */
  datatype Field = Start | End

  /** A `WorkingHours` object: the days that have an entry. */
  type Hours = map<Day, DayHours>

  /** The key of a day in the stored object. */
  function DayId(d: Day): string {
    match d
    case Monday => "monday"
    case Tuesday => "tuesday"
    case Wednesday => "wednesday"
    case Thursday => "thursday"
    case Friday => "friday"
    case Saturday => "saturday"
    case Sunday => "sunday"
  }

  /** The week in display order. */
  const Week: seq<Day> := [Monday, Tuesday, Wednesday, Thursday, Friday, Saturday, Sunday]

  /** The `DAYS` table of the profile's working-hours section: id and label. */
  const SectionDays: seq<(string, string)> := [
    ("monday", "Monday"), ("tuesday", "Tuesday"), ("wednesday", "Wednesday"),
    ("thursday", "Thursday"), ("friday", "Friday"), ("saturday", "Saturday"),
    ("sunday", "Sunday")]

  /** The `DAYS` table of the stand-alone working-hours input: ids only (the
      label is the id, capitalised by the stylesheet). */
  const InputDays: seq<string> := ["monday", "tuesday", "wednesday", "thursday", "friday", "saturday", "sunday"]

  function Get(h: DayHours, f: Field): string {
    match f
    case Start => h.start
    case End => h.end
  }

  function Other(f: Field): Field {
    match f
    case Start => End
    case End => Start
  }

  function Put(h: DayHours, f: Field, t: string): (r: DayHours)
    ensures Get(r, f) == t && Get(r, Other(f)) == Get(h, Other(f))
  {
    match f
    case Start => h.(start := t)
    case End => h.(end := t)
  }

  /** `handleTimeChange(day, field, time)`: the object handed to `onChange`.
      A `null` value counts as no entries; a day without an entry starts
      from two empty times. The field gets the time, the day's other field
      is kept, and every other day is left as it was. */
  function SetTime(value: Option<Hours>, day: Day, field: Field, time: string): (r: Hours)
    ensures day in r && Get(r[day], field) == time
    ensures Get(r[day], Other(field)) ==
      if value.Some? && day in value.value then Get(value.value[day], Other(field)) else ""
    ensures r.Keys == value.GetOr(map[]).Keys + {day}
    ensures forall d :: d in r && d != day ==> value.Some? && d in value.value && r[d] == value.value[d]
  {
    var hours := value.GetOr(map[]);
    var current := if day in hours then hours[day] else DayHours("", "");
    hours[day := Put(current, field, time)]
  }

  /** The text an input shows: `value?.[day]?.[field] || ''`. */
  function Shown(value: Option<Hours>, day: Day, field: Field): string {
    if value.Some? && day in value.value then Get(value.value[day], field) else ""
  }

  /** After an edit, the edited input shows the new time and every other
      input shows what it showed before. */
  lemma EditShowsNewTime(value: Option<Hours>, day: Day, field: Field, time: string, d: Day, g: Field)
    ensures var r := Some(SetTime(value, day, field, time));
      Shown(r, d, g) == if d == day && g == field then time else Shown(value, d, g)
  {
    if d == day && g != field {
      assert g == Other(field);
    }
  }

  /** Editing the same input twice keeps only the second time. */
  lemma LastEditWins(value: Option<Hours>, day: Day, field: Field, t1: string, t2: string)
    ensures SetTime(Some(SetTime(value, day, field, t1)), day, field, t2) == SetTime(value, day, field, t2)
  {
    var a := SetTime(Some(SetTime(value, day, field, t1)), day, field, t2);
    var b := SetTime(value, day, field, t2);
    assert a[day] == b[day] by {
      assert Get(a[day], Other(field)) == Get(b[day], Other(field));
      match field {
        case Start =>
        case End =>
      }
    }
  }

  /** Setting a new day's start and then its end yields exactly that pair. */
  lemma StartThenEnd(value: Option<Hours>, day: Day, s: string, e: string)
    ensures SetTime(Some(SetTime(value, day, Start, s)), day, End, e)[day] == DayHours(s, e)
  {
  }

  /** Edits of different days commute. */
  lemma EditsOfDifferentDaysCommute(value: Option<Hours>, d1: Day, f1: Field, t1: string, d2: Day, f2: Field, t2: string)
    requires d1 != d2
    ensures SetTime(Some(SetTime(value, d1, f1, t1)), d2, f2, t2) == SetTime(Some(SetTime(value, d2, f2, t2)), d1, f1, t1)
  {
  }

  /** The week lists the seven weekdays once each. */
  lemma WeekListsEveryDayOnce()
    ensures |Week| == 7
    ensures forall d: Day :: d in Week
    ensures forall i, j :: 0 <= i < j < 7 ==> Week[i] != Week[j]
  {
    forall d: Day ensures d in Week {
      match d {
        case Monday => assert Week[0] == d;
        case Tuesday => assert Week[1] == d;
        case Wednesday => assert Week[2] == d;
        case Thursday => assert Week[3] == d;
        case Friday => assert Week[4] == d;
        case Saturday => assert Week[5] == d;
        case Sunday => assert Week[6] == d;
      }
    }
  }

  /** Both `DAYS` tables list the ids of the week, Monday to Sunday. */
  lemma DayTablesFollowWeek()
    ensures |SectionDays| == 7 && |InputDays| == 7
    ensures forall i :: 0 <= i < 7 ==> InputDays[i] == DayId(Week[i])
    ensures forall i :: 0 <= i < 7 ==> SectionDays[i].0 == DayId(Week[i])
  {
  }

  /** The section's labels are its ids with the first letter capitalised. */
  lemma SectionLabelsCapitalizeIds()
    ensures forall i :: 0 <= i < |SectionDays| ==> SectionDays[i].1 == Capitalize(SectionDays[i].0)
  {
    forall i | 0 <= i < |SectionDays|
      ensures SectionDays[i].1 == Capitalize(SectionDays[i].0)
    {
      var id := SectionDays[i].0;
      assert SectionDays[i].1 == [UpperChar(id[0])] + id[1..];
    }
  }
}
