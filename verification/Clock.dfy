/** UTC instants as the civil fields that Go prints, with nanoseconds. */
module Clock {
  datatype Time = Time(year: nat, month: nat, day: nat, hour: nat, minute: nat, second: nat, nanos: nat)

  predicate IsLeapYear(year: nat) {
    year % 4 == 0 && (year % 100 != 0 || year % 400 == 0)
  }

  function DaysInMonth(year: nat, month: nat): nat {
    if month == 2 then (if IsLeapYear(year) then 29 else 28)
    else if month == 4 || month == 6 || month == 9 || month == 11 then 30
    else 31
  }

  predicate IsTimestamp(t: Time) {
    && t.year <= 9999
    && 1 <= t.month <= 12
    && 1 <= t.day <= DaysInMonth(t.year, t.month)
    && t.hour <= 23
    && t.minute <= 59
    && t.second <= 59
    && t.nanos < 1_000_000_000
  }

  /** Years 0..9999, the range of the RFC 3339 date syntax. */
  type Timestamp = t: Time | IsTimestamp(t) witness Time(1970, 1, 1, 0, 0, 0, 0)

  /** Appends a digit in the given base. */
  function Append(high: int, base: int, digit: int): int {
    high * base + digit
  }

  lemma AppendOrder(high: int, high': int, base: int, digit: int, digit': int)
    requires 0 <= digit < base && 0 <= digit' < base
    ensures Append(high, base, digit) < Append(high', base, digit')
       <==> high < high' || (high == high' && digit < digit')
  {
    if high < high' {
      assert (high + 1) * base <= high' * base;
    } else if high' < high {
      assert (high' + 1) * base <= high * base;
    }
  }

  function RankOfDay(t: Time): int {
    Append(Append(t.year, 12, t.month - 1), 31, t.day - 1)
  }

  function RankOfSecond(t: Time): int {
    Append(Append(Append(RankOfDay(t), 24, t.hour), 60, t.minute), 60, t.second)
  }

  /** Places an instant on a line: earlier instants have smaller ranks. */
  function Rank(t: Time): int {
    Append(RankOfSecond(t), 1_000_000_000, t.nanos)
  }

  predicate Before(a: Timestamp, b: Timestamp) {
    Rank(a) < Rank(b)
  }

  predicate EarlierDay(a: Time, b: Time) {
    || a.year < b.year
    || (a.year == b.year && a.month < b.month)
    || (a.year == b.year && a.month == b.month && a.day < b.day)
  }

  predicate EarlierTimeOfDay(a: Time, b: Time) {
    || a.hour < b.hour
    || (a.hour == b.hour && a.minute < b.minute)
    || (a.hour == b.hour && a.minute == b.minute && a.second < b.second)
    || (a.hour == b.hour && a.minute == b.minute && a.second == b.second && a.nanos < b.nanos)
  }

  predicate SameDay(a: Time, b: Time) {
    a.year == b.year && a.month == b.month && a.day == b.day
  }

  lemma DayOrder(a: Timestamp, b: Timestamp)
    ensures RankOfDay(a) < RankOfDay(b) <==> EarlierDay(a, b)
    ensures RankOfDay(a) == RankOfDay(b) <==> SameDay(a, b)
  {
    var am, bm := Append(a.year, 12, a.month - 1), Append(b.year, 12, b.month - 1);
    AppendOrder(a.year, b.year, 12, a.month - 1, b.month - 1);
    AppendOrder(b.year, a.year, 12, b.month - 1, a.month - 1);
    AppendOrder(am, bm, 31, a.day - 1, b.day - 1);
    AppendOrder(bm, am, 31, b.day - 1, a.day - 1);
  }

  lemma SecondOrder(a: Timestamp, b: Timestamp)
    ensures RankOfSecond(a) < RankOfSecond(b) <==>
            || RankOfDay(a) < RankOfDay(b)
            || (RankOfDay(a) == RankOfDay(b) && EarlierTimeOfDay(a.(nanos := 0), b.(nanos := 0)))
  {
    var ad, bd := RankOfDay(a), RankOfDay(b);
    AppendOrder(ad, bd, 24, a.hour, b.hour);
    AppendOrder(bd, ad, 24, b.hour, a.hour);
    var ah, bh := Append(ad, 24, a.hour), Append(bd, 24, b.hour);
    AppendOrder(ah, bh, 60, a.minute, b.minute);
    AppendOrder(bh, ah, 60, b.minute, a.minute);
    AppendOrder(Append(ah, 60, a.minute), Append(bh, 60, b.minute), 60, a.second, b.second);
  }

  /** Rank order is chronological order: the calendar day decides, then the time of day. */
  lemma BeforeIsChronological(a: Timestamp, b: Timestamp)
    ensures Before(a, b) <==> EarlierDay(a, b) || (SameDay(a, b) && EarlierTimeOfDay(a, b))
  {
    DayOrder(a, b);
    DayOrder(b, a);
    SecondOrder(a, b);
    SecondOrder(b, a);
    AppendOrder(RankOfSecond(a), RankOfSecond(b), 1_000_000_000, a.nanos, b.nanos);
  }

  lemma RankIsInjective(a: Timestamp, b: Timestamp)
    requires Rank(a) == Rank(b)
    ensures a == b
  {
    BeforeIsChronological(a, b);
    BeforeIsChronological(b, a);
  }
}
