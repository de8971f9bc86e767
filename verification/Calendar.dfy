/** Calendar dates, as far as expiries need them. */
module Calendar {

  datatype Date = Date(year: int, month: int, day: int)

  predicate Leap(y: int) { y % 4 == 0 && (y % 100 != 0 || y % 400 == 0) }

  function DaysIn(y: int, m: int): (n: int)
    ensures 28 <= n <= 31
  {
    if m == 2 then (if Leap(y) then 29 else 28)
    else if m == 4 || m == 6 || m == 9 || m == 11 then 30 else 31
  }

  predicate ValidDate(d: Date) { 1 <= d.month <= 12 && 1 <= d.day <= DaysIn(d.year, d.month) }

  predicate Earlier(a: Date, b: Date) {
    a.year < b.year || (a.year == b.year && (a.month < b.month || (a.month == b.month && a.day < b.day)))
  }

  predicate Sorted(ds: seq<Date>) { forall i, j :: 0 <= i < j < |ds| ==> Earlier(ds[i], ds[j]) }

  function DaysBeforeMonth(y: int, m: int): int
    requires 1 <= m <= 12
    decreases m
  {
    if m == 1 then 0 else DaysBeforeMonth(y, m - 1) + DaysIn(y, m - 1)
  }

  /** The number of a day, counted from the first of January of year 1. */
  function Ordinal(d: Date): int
    requires ValidDate(d)
  {
    YearStart(d.year) + DaysBeforeMonth(d.year, d.month) + d.day
  }

  /** The days before a year. */
  function YearStart(year: int): int {
    var y := year - 1;
    y * 365 + y / 4 - y / 100 + y / 400
  }

  /** Monday is 0. */
  function Weekday(d: Date): (w: int)
    requires ValidDate(d)
    ensures 0 <= w < 7
  {
    (Ordinal(d) + 6) % 7
  }

  /** Going back as many days as the weekday is past Thursday, at most six, leads to a Thursday. */
  lemma BackToThursday(d: Date, back: int)
    requires ValidDate(d) && back == (Weekday(d) - 3) % 7 && d.day - back >= 1
    ensures ValidDate(d.(day := d.day - back)) && Weekday(d.(day := d.day - back)) == 3
  {
    assert Ordinal(d.(day := d.day - back)) == Ordinal(d) - back;
    hide Ordinal;
    BackToThree(Ordinal(d) + 6, back);
  }

  lemma BackToThree(n: int, back: int)
    requires back == (n % 7 - 3) % 7
    ensures (n - back) % 7 == 3
  {
    var q, w := n / 7, n % 7;
    assert n == 7 * q + w;
    assert back == if w >= 3 then w - 3 else w + 4;
    assert n - back == if w >= 3 then 7 * q + 3 else 7 * (q - 1) + 3;
  }

  /** The last Thursday of a month. */
  function LastThursday(y: int, m: int): (d: Date)
    requires 1 <= m <= 12
    ensures ValidDate(d) && d.year == y && d.month == m && Weekday(d) == 3 && d.day + 7 > DaysIn(y, m)
  {
    var last := Date(y, m, DaysIn(y, m));
    var back := (Weekday(last) - 3) % 7;
    BackToThursday(last, back);
    last.(day := last.day - back)
  }

  /** The day after. */
  function NextDay(d: Date): (n: Date)
    requires ValidDate(d)
    ensures ValidDate(n) && Earlier(d, n)
  {
    if d.day < DaysIn(d.year, d.month) then d.(day := d.day + 1)
    else if d.month < 12 then Date(d.year, d.month + 1, 1)
    else Date(d.year + 1, 1, 1)
  }

  /** Days are numbered without a gap, through month ends, year ends and leap years. */
  lemma OrdinalAdvances(d: Date)
    requires ValidDate(d)
    ensures Ordinal(NextDay(d)) == Ordinal(d) + 1
  {
    hide YearStart, Leap;
    if d.day == DaysIn(d.year, d.month) {
      if d.month < 12 {
        assert DaysBeforeMonth(d.year, d.month + 1) == DaysBeforeMonth(d.year, d.month) + d.day;
      } else {
        DaysInYear(d.year);
        NextYear(d.year);
        assert DaysBeforeMonth(d.year + 1, 1) == 0;
      }
    }
  }

  lemma NextYear(y: int)
    ensures YearStart(y + 1) == YearStart(y) + if Leap(y) then 366 else 365
  {
    LeapYears(y);
    hide Leap;
  }

  lemma DaysInYear(y: int)
    ensures DaysBeforeMonth(y, 12) + 31 == if Leap(y) then 366 else 365
  {
    var feb := if Leap(y) then 29 else 28;
    assert DaysBeforeMonth(y, 1) == 0;
    assert DaysBeforeMonth(y, 2) == 31;
    assert DaysBeforeMonth(y, 3) == 31 + feb;
    assert DaysBeforeMonth(y, 4) == 62 + feb;
    assert DaysBeforeMonth(y, 5) == 92 + feb;
    assert DaysBeforeMonth(y, 6) == 123 + feb;
    assert DaysBeforeMonth(y, 7) == 153 + feb;
    assert DaysBeforeMonth(y, 8) == 184 + feb;
    assert DaysBeforeMonth(y, 9) == 215 + feb;
    assert DaysBeforeMonth(y, 10) == 245 + feb;
    assert DaysBeforeMonth(y, 11) == 276 + feb;
    assert DaysBeforeMonth(y, 12) == 306 + feb;
  }

  /** How the count of leap days grows over a year. */
  lemma LeapYears(y: int)
    ensures y / 4 - y / 100 + y / 400 == (y - 1) / 4 - (y - 1) / 100 + (y - 1) / 400 + if Leap(y) then 1 else 0
  {
    Carry(y, 4);
    Carry(y, 100);
    Carry(y, 400);
    Multiples(y);
    var by4, by100, by400 := y % 4 == 0, y % 100 == 0, y % 400 == 0;
    assert Leap(y) == (by4 && (!by100 || by400));
    hide *;
  }

  lemma Multiples(y: int)
    ensures y % 400 == 0 ==> y % 100 == 0
    ensures y % 100 == 0 ==> y % 4 == 0
  {
    By100(4 * (y / 400));
    By4(25 * (y / 100));
  }

  lemma By100(z: int)
    ensures 100 * z % 100 == 0
  {
  }

  lemma By4(z: int)
    ensures 4 * z % 4 == 0
  {
  }

  lemma Carry(y: int, d: int)
    requires d == 4 || d == 100 || d == 400
    ensures y / d == (y - 1) / d + if y % d == 0 then 1 else 0
  {
  }

  /** 1 January 1970 was a Thursday, and every day is followed by the next weekday: that fixes them all. */
  lemma Weekdays(d: Date)
    requires ValidDate(d)
    ensures Weekday(Date(1970, 1, 1)) == 3
    ensures Weekday(NextDay(d)) == if Weekday(d) == 6 then 0 else Weekday(d) + 1
  {
    OrdinalAdvances(d);
    Epoch();
    hide Ordinal;
    NextMod(Ordinal(d) + 6);
  }

  lemma Epoch()
    ensures Weekday(Date(1970, 1, 1)) == 3
  {
    assert DaysBeforeMonth(1970, 1) == 0;
  }

  lemma NextMod(n: int)
    ensures (n + 1) % 7 == if n % 7 == 6 then 0 else n % 7 + 1
  {
  }
}
