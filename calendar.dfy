/**
 * The in-game calendar page (src/app/calendar/PageComponent.tsx): the
 * month table, the four settings the page holds, and the number of in-game
 * hours a date stands for.
 *
 * The settings are numbers as `parseInt` leaves them (NaN for text it
 * cannot read), so `Num` carries NaN through the formula.  The real-life
 * hours lines (`daysPerMonth * 0.8`) are floating point and not modelled.
 */
module Calendar {
  import opened Wrappers
  import opened Numbers

  datatype Month = Month(name: string, index: nat)

  const Months: seq<Month> := [
    Month("January", 0), Month("February", 1), Month("March", 2), Month("April", 3),
    Month("May", 4), Month("June", 5), Month("July", 6), Month("August", 7),
    Month("September", 8), Month("October", 9), Month("November", 10), Month("December", 11)]

  /** Twelve months, January first, each carrying its own position as index. */
  lemma MonthsTable()
    ensures |Months| == 12
    ensures forall i :: 0 <= i < |Months| ==> Months[i].index == i
    ensures Months[0].name == "January" && Months[4].name == "May" && Months[11].name == "December"
  {
  }

  /** `(year * 12 * daysPerMonth) + (month.index * daysPerMonth) + dayOfMonth`, in JavaScript arithmetic. */
  function TotalHours(daysPerMonth: Num, year: Num, month: Month, dayOfMonth: Num): (h: Num)
    ensures daysPerMonth.NaN? || year.NaN? || dayOfMonth.NaN? ==> h.NaN?
  {
    Add(Add(Mul(Mul(year, Fin(12)), daysPerMonth), Mul(Fin(month.index), daysPerMonth)), dayOfMonth)
  }

  /** The number of hours shown for finite settings: whole months since the epoch times the month length, plus the day. */
  function Hours(dpm: int, year: int, month: Month, day: int): int {
    (12 * year + month.index) * dpm + day
  }

  /** With finite settings the page shows `Hours`. */
  lemma FiniteHours(dpm: int, year: int, month: Month, day: int)
    ensures TotalHours(Fin(dpm), Fin(year), month, Fin(day)) == Fin(Hours(dpm, year, month, day))
  {
    assert (12 * year + month.index) * dpm == year * 12 * dpm + month.index * dpm;
  }

  /** With months of a non-negative length, a later year, month or day never shows fewer hours. */
  lemma HoursMonotone(dpm: int, year: int, month: Month, day: int, year': int, month': Month, day': int)
    requires dpm >= 0
    requires year <= year' && month.index <= month'.index && day <= day'
    ensures Hours(dpm, year, month, day) <= Hours(dpm, year', month', day')
  {
    var m, m' := 12 * year + month.index, 12 * year' + month'.index;
    assert m <= m';
    MulMonotone(m, m', dpm);
  }

  lemma MulMonotone(a: int, b: int, c: int)
    requires a <= b && c >= 0
    ensures a * c <= b * c
  {
    assert b * c - a * c == (b - a) * c;
  }

  /** `a` comes strictly before `b` in (year, month, day) order. */
  predicate Earlier(year: int, month: Month, day: int, year': int, month': Month, day': int) {
    year < year' || (year == year' && month.index < month'.index) || (year == year' && month.index == month'.index && day < day')
  }

  /** Counting in months of `dpm` hours: for days within the month, more hours means a later month, or a later day in the same month. */
  lemma MonthsAndDays(m: int, d: int, m': int, d': int, dpm: int)
    requires 0 <= d < dpm && 0 <= d' < dpm
    ensures m * dpm + d < m' * dpm + d' <==> m < m' || (m == m' && d < d')
  {
    if m < m' {
      MulMonotone(m + 1, m', dpm);
      assert (m + 1) * dpm == m * dpm + dpm;
    } else if m' < m {
      MulMonotone(m' + 1, m, dpm);
      assert (m' + 1) * dpm == m' * dpm + dpm;
    }
  }

  /**
   * For months of the table and days within the month, the hours count orders dates exactly as
   * the calendar does, so two different dates never show the same number of hours.
   */
  lemma HoursOrderDates(dpm: int, year: int, month: Month, day: int, year': int, month': Month, day': int)
    requires month.index < |Months| && month'.index < |Months|
    requires 0 <= day < dpm && 0 <= day' < dpm
    ensures Hours(dpm, year, month, day) < Hours(dpm, year', month', day') <==> Earlier(year, month, day, year', month', day')
  {
    MonthsAndDays(12 * year + month.index, day, 12 * year' + month'.index, day', dpm);
  }

  /** The page's four settings. */
  class CalendarPage {
    var daysPerMonth: Num
    var year: Num
    var month: Month
    var dayOfMonth: Num

    function ShownHours(): Num
      reads this
    {
      TotalHours(daysPerMonth, year, month, dayOfMonth)
    }

    /** Nine days per month, year 0, May, day 0: the page opens on 36 hours. */
    constructor ()
      ensures daysPerMonth == Fin(9) && year == Fin(0) && month == Months[4] && dayOfMonth == Fin(0)
      ensures ShownHours() == Fin(36)
    {
      daysPerMonth := Fin(9);
      year := Fin(0);
      month := Months[4];
      dayOfMonth := Fin(0);
    }

    /** The "Days Per Month" field stores whatever `parseInt` read. */
    method SetDaysPerMonth(parsed: Num)
      modifies this
      ensures daysPerMonth == parsed && year == old(year) && month == old(month) && dayOfMonth == old(dayOfMonth)
    {
      daysPerMonth := parsed;
    }

    /** The "Year" field stores whatever `parseInt` read. */
    method SetYear(parsed: Num)
      modifies this
      ensures year == parsed && daysPerMonth == old(daysPerMonth) && month == old(month) && dayOfMonth == old(dayOfMonth)
    {
      year := parsed;
    }

    /** The "Day" field stores whatever `parseInt` read. */
    method SetDayOfMonth(parsed: Num)
      modifies this
      ensures dayOfMonth == parsed && daysPerMonth == old(daysPerMonth) && year == old(year) && month == old(month)
    {
      dayOfMonth := parsed;
    }

    /** The month picker: a chosen month is stored; clearing the picker (null) keeps the month. */
    method SelectMonth(choice: Option<Month>)
      modifies this
      ensures choice.Some? ==> month == choice.value
      ensures choice.None? ==> month == old(month)
      ensures daysPerMonth == old(daysPerMonth) && year == old(year) && dayOfMonth == old(dayOfMonth)
    {
      if choice.Some? {
        month := choice.value;
      }
    }
  }
}
