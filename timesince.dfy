/**
  The blog's relative-time formatter `timeSince`: given how long ago a post
  was dated, it answers "<count> <unit> ago" for the largest unit of a fixed
  ladder (years, months, days with a weeks sub-case, hours, minutes) whose
  whole count exceeds one, and falls back to raw seconds otherwise.

  The browser computes the elapsed time as the difference of two dates in
  milliseconds; here that difference is the input.  A date string the
  browser cannot parse makes the difference NaN, which the model keeps as
  its own case.
 */
module TimeSince {
  import Decimal

  datatype Unit = Seconds | Minutes | Hours | Days | Week | Weeks | Months | Years

  /** What the formatter reports: a whole count of a unit. */
  datatype Ago = Ago(count: int, unit: Unit)

  /** The elapsed time handed to the formatter. */
  datatype Elapsed =
    | Millis(ms: int)   // now minus the post's date, in milliseconds
    | Unparseable       // the date string did not parse, so the difference is NaN

  datatype Option<T> = None | Some(value: T)

  // The thresholds of the ladder, in seconds (a year is 365 days, a month 30).
  const YearSeconds: int := 31536000
  const MonthSeconds: int := 2592000
  const DaySeconds: int := 86400
  const HourSeconds: int := 3600
  const MinuteSeconds: int := 60
  const DaysPerWeek: int := 7
  const WeekSeconds: int := DaysPerWeek * DaySeconds

  /** How many seconds one of `u` stands for. */
  function UnitSeconds(u: Unit): (k: int)
    ensures k >= 1
  {
    match u
    case Seconds => 1
    case Minutes => MinuteSeconds
    case Hours => HourSeconds
    case Days => DaySeconds
    case Week => WeekSeconds
    case Weeks => WeekSeconds
    case Months => MonthSeconds
    case Years => YearSeconds
  }

  /** The order of the ladder, smallest unit first. */
  function Rank(u: Unit): nat {
    match u
    case Seconds => 0
    case Minutes => 1
    case Hours => 2
    case Days => 3
    case Week => 4
    case Weeks => 5
    case Months => 6
    case Years => 7
  }

  /** `count` is the number of whole units of `k` seconds in `seconds`. */
  predicate IsFloorCount(count: int, k: int, seconds: int) {
    count * k <= seconds < (count + 1) * k
  }

  /** Whole seconds in `ms` milliseconds, rounded down (also for a date in the future). */
  function SecondsOf(ms: int): (s: int)
    ensures s * 1000 <= ms < (s + 1) * 1000
  {
    ms / 1000
  }

  /** The first test of the week sub-case: the day count divided by seven, as a
      fraction, exceeds one. */
  predicate WeeksTest(days: int)
    ensures WeeksTest(days) <==> days > DaysPerWeek
  {
    days as real / 7.0 > 1.0
  }

  /** The second test of the week sub-case, reached only when `WeeksTest` failed.
      Its second disjunct implies `WeeksTest`, so it can never decide anything,
      and the week branch is taken for exactly seven days. */
  predicate WeekTest(days: int)
    ensures var w := days as real / 7.0; (w > 1.0 && w < 2.0) ==> WeeksTest(days)
    ensures !WeeksTest(days) ==> (WeekTest(days) <==> days == DaysPerWeek)
  {
    var w := days as real / 7.0;
    w == 1.0 || (w > 1.0 && w < 2.0)
  }

  /** Whole weeks in `seconds` are whole weeks in its whole days. */
  lemma WeeksOfDays(seconds: int)
    ensures (seconds / DaySeconds) / DaysPerWeek == seconds / WeekSeconds
  {
    var d := seconds / DaySeconds;
    var w := d / DaysPerWeek;
    assert d * DaySeconds <= seconds < (d + 1) * DaySeconds;
    assert w * DaysPerWeek <= d < (w + 1) * DaysPerWeek;
    assert w * WeekSeconds <= seconds < (w + 1) * WeekSeconds;
  }

  /** The ladder as the code walks it, on whole elapsed seconds. */
  function Classify(seconds: int): (r: Ago)
    // every answer is the floored count of its unit
    ensures IsFloorCount(r.count, UnitSeconds(r.unit), seconds)
    // the band of elapsed time in which each unit is chosen
    ensures r.unit == Years <==> seconds >= 2 * YearSeconds
    ensures r.unit == Months <==> 2 * MonthSeconds <= seconds < 2 * YearSeconds
    ensures r.unit == Weeks <==> 8 * DaySeconds <= seconds < 2 * MonthSeconds
    ensures r.unit == Week <==> 7 * DaySeconds <= seconds < 8 * DaySeconds
    ensures r.unit == Days <==> 2 * DaySeconds <= seconds < 7 * DaySeconds
    ensures r.unit == Hours <==> 2 * HourSeconds <= seconds < 2 * DaySeconds
    ensures r.unit == Minutes <==> 2 * MinuteSeconds <= seconds < 2 * HourSeconds
    ensures r.unit == Seconds <==> seconds < 2 * MinuteSeconds
    // the counts each unit can be reported with
    ensures r.unit == Years ==> r.count >= 2
    ensures r.unit == Months ==> 2 <= r.count <= 24
    ensures r.unit == Weeks ==> 1 <= r.count <= 8
    ensures r.unit == Week ==> r.count == 1
    ensures r.unit == Days ==> 2 <= r.count <= 6
    ensures r.unit == Hours ==> 2 <= r.count <= 47
    ensures r.unit == Minutes ==> 2 <= r.count <= 119
    ensures r.unit == Seconds ==> r.count == seconds
  {
    var years := seconds / YearSeconds;
    if years > 1 then Ago(years, Years)
    else
      var months := seconds / MonthSeconds;
      if months > 1 then Ago(months, Months)
      else
        var days := seconds / DaySeconds;
        if days > 1 then
          if WeeksTest(days) then
            WeeksOfDays(seconds);
            Ago(days / DaysPerWeek, Weeks)
          else
            if WeekTest(days) then
              WeeksOfDays(seconds);
              Ago(days / DaysPerWeek, Week)
            else Ago(days, Days)
        else
          var hours := seconds / HourSeconds;
          if hours > 1 then Ago(hours, Hours)
          else
            var minutes := seconds / MinuteSeconds;
            if minutes > 1 then Ago(minutes, Minutes)
            else Ago(seconds, Seconds)
  }

  /** The literal text after the count. */
  function Suffix(u: Unit): (r: string)
    // the count is followed by a space, and every answer ends in " ago"
    ensures |r| >= 5 && r[0] == ' ' && r[|r| - 4..] == " ago"
  {
    match u
    case Seconds => " seconds ago"
    case Minutes => " minutes ago"
    case Hours => " hours ago"
    case Days => " days ago"
    case Week => " week ago"
    case Weeks => " weeks ago"
    case Months => " months ago"
    case Years => " years ago"
  }

  /** The unit whose suffix is `s`, if any. */
  function UnitOfSuffix(s: string): (u: Option<Unit>)
    ensures u.Some? ==> Suffix(u.value) == s
    ensures u.None? ==> forall v :: Suffix(v) != s
  {
    if s == " seconds ago" then Some(Seconds)
    else if s == " minutes ago" then Some(Minutes)
    else if s == " hours ago" then Some(Hours)
    else if s == " days ago" then Some(Days)
    else if s == " week ago" then Some(Week)
    else if s == " weeks ago" then Some(Weeks)
    else if s == " months ago" then Some(Months)
    else if s == " years ago" then Some(Years)
    else None
  }

  /** The count printed as a JavaScript number, followed by the unit's suffix.
      The text names its count and unit unambiguously. */
  function Render(a: Ago): (r: string)
    ensures ParseAgo(r) == Some(a)
  {
    var p := Decimal.IntToString(a.count);
    var s := p + Suffix(a.unit);
    Decimal.IntToStringHasNoSpace(a.count);
    FirstSpaceOfConcat(p, Suffix(a.unit));
    assert s[..|p|] == p;
    assert s[|p|..] == Suffix(a.unit);
    Decimal.IntRoundTrip(a.count);
    s
  }

  /** Index of the first space in `s`, or `|s|` when there is none. */
  function FirstSpace(s: string): (i: nat)
    ensures i <= |s|
    ensures forall j :: 0 <= j < i ==> s[j] != ' '
    ensures i < |s| ==> s[i] == ' '
  {
    if |s| == 0 then 0 else if s[0] == ' ' then 0 else 1 + FirstSpace(s[1..])
  }

  /** Reads a formatter answer back into its count and unit. */
  function ParseAgo(s: string): Option<Ago> {
    var i := FirstSpace(s);
    var count := s[..i];
    match UnitOfSuffix(s[i..])
    case None => None
    case Some(u) => if Decimal.IsIntText(count) then Some(Ago(Decimal.ParseInt(count), u)) else None
  }

  lemma {:induction false} FirstSpaceOfConcat(p: string, q: string)
    requires ' ' !in p
    requires |q| >= 1 && q[0] == ' '
    ensures FirstSpace(p + q) == |p|
    decreases |p|
  {
    if |p| > 0 {
      assert (p + q)[1..] == p[1..] + q;
      FirstSpaceOfConcat(p[1..], q);
    } else {
      assert p + q == q;
    }
  }

  /** Only the rendered text reads back as an answer: a text that parses is
      exactly `Render` of what it parses to. */
  lemma ParseAgoInverse(a: Ago)
    ensures forall t :: ParseAgo(t) == Some(a) ==> t == Render(a)
  {
    forall t | ParseAgo(t) == Some(a) ensures t == Render(a) {
      var i := FirstSpace(t);
      var count := t[..i];
      assert Suffix(a.unit) == t[i..];
      Decimal.IntTextRoundTrip(count);
      assert t == count + t[i..];
    }
  }

  /** The one answer the corrected week sub-case adds. */
  lemma OneWeekText()
    ensures Render(Ago(1, Week)) == "1 week ago"
  {
    assert Decimal.IntToString(1) == "1";
  }

  /** `timeSince`: the relative-time text for an elapsed time. */
  function TimeSinceText(e: Elapsed): (text: string)
    // the text reads back as the classification of the whole elapsed seconds
    ensures e.Millis? ==> ParseAgo(text) == Some(Classify(SecondsOf(e.ms)))
    // and it is the only text that does
    ensures e.Millis? ==> forall t :: ParseAgo(t) == ParseAgo(text) ==> t == text
    // a date that did not parse gives NaN, which no unit test accepts
    ensures e.Unparseable? ==> text == "NaN seconds ago" && ParseAgo(text) == None
  {
    match e
    case Millis(ms) =>
      var a := Classify(SecondsOf(ms));
      ParseAgoInverse(a);
      Render(a)
    case Unparseable =>
      assert FirstSpace("NaN seconds ago") == 3;
      "NaN seconds ago"
  }

  /** Distinct answers are distinct texts. */
  lemma RenderInjective(a: Ago, b: Ago)
    requires Render(a) == Render(b)
    ensures a == b
  {
  }

  /** The reported age never goes down as more time passes: the unit climbs
      the ladder, and within one unit the count does not decrease. */
  lemma ClassifyMonotone(s1: int, s2: int)
    requires s1 <= s2
    ensures Rank(Classify(s1).unit) <= Rank(Classify(s2).unit)
    ensures Classify(s1).unit == Classify(s2).unit ==> Classify(s1).count <= Classify(s2).count
  {
    var a, b := Classify(s1), Classify(s2);
    if a.unit == b.unit {
      var k := UnitSeconds(a.unit);
      assert a.count * k <= s1 <= s2 < (b.count + 1) * k;
    }
  }

  /** "1 years ago" is never produced: one to two years reads as months. */
  lemma NeverOneYear(seconds: int)
    ensures Classify(seconds) != Ago(1, Years)
    ensures YearSeconds <= seconds < 2 * YearSeconds ==> Classify(seconds).unit == Months
  {
  }

  /** "1 weeks ago", with the plural, is produced for eight to thirteen whole days. */
  lemma OneWeeksAgo(seconds: int)
    ensures Classify(seconds) == Ago(1, Weeks) <==> 8 * DaySeconds <= seconds < 14 * DaySeconds
  {
    var r := Classify(seconds);
    if r.unit == Weeks && 14 * DaySeconds <= seconds {
      assert r.count * WeekSeconds <= seconds < (r.count + 1) * WeekSeconds;
    }
  }

  /** Eight days: the plural with a count of one. */
  lemma EightDaysIsOneWeeks()
    ensures TimeSinceText(Millis(8 * DaySeconds * 1000)) == "1 weeks ago"
  {
    assert SecondsOf(8 * DaySeconds * 1000) == 8 * DaySeconds;
    assert Classify(8 * DaySeconds) == Ago(1, Weeks);
    assert Decimal.IntToString(1) == "1";
    assert Render(Ago(1, Weeks)) == "1 weeks ago";
  }

  /** The week sub-case as the authors evidently meant it: one whole week
      (seven to thirteen days) reads "1 week ago", two or more read "weeks". */
  function ClassifyIntended(seconds: int): (r: Ago)
    ensures IsFloorCount(r.count, UnitSeconds(r.unit), seconds)
    ensures r.unit == Weeks <==> 14 * DaySeconds <= seconds < 2 * MonthSeconds
    ensures r.unit == Week <==> 7 * DaySeconds <= seconds < 14 * DaySeconds
    // the singular is used exactly for a count of one week
    ensures (r.unit == Week || r.unit == Weeks) ==> (r.count == 1 <==> r.unit == Week)
    // everywhere else it answers as the code does
    ensures !(8 * DaySeconds <= seconds < 14 * DaySeconds) ==> r == Classify(seconds)
    ensures 8 * DaySeconds <= seconds < 14 * DaySeconds ==> r == Ago(1, Week) && Classify(seconds) == Ago(1, Weeks)
  {
    var a := Classify(seconds);
    if a.unit == Weeks && a.count == 1 then
      OneWeeksAgo(seconds);
      Ago(1, Week)
    else
      OneWeeksAgo(seconds);
      a
  }

  lemma ClassifyIntendedMonotone(s1: int, s2: int)
    requires s1 <= s2
    ensures Rank(ClassifyIntended(s1).unit) <= Rank(ClassifyIntended(s2).unit)
    ensures ClassifyIntended(s1).unit == ClassifyIntended(s2).unit ==>
              ClassifyIntended(s1).count <= ClassifyIntended(s2).count
  {
    var a, b := ClassifyIntended(s1), ClassifyIntended(s2);
    if a.unit == b.unit {
      var k := UnitSeconds(a.unit);
      assert a.count * k <= s1 <= s2 < (b.count + 1) * k;
    }
  }

  /** `timeSince` with the week sub-case corrected. */
  function TimeSinceTextIntended(e: Elapsed): (text: string)
    ensures e.Millis? ==> ParseAgo(text) == Some(ClassifyIntended(SecondsOf(e.ms)))
    ensures e.Millis? ==> forall t :: ParseAgo(t) == ParseAgo(text) ==> t == text
    ensures e.Millis? && 8 * DaySeconds <= SecondsOf(e.ms) < 14 * DaySeconds ==> text == "1 week ago"
    ensures e.Unparseable? ==> text == TimeSinceText(e)
  {
    match e
    case Millis(ms) =>
      var a := ClassifyIntended(SecondsOf(ms));
      ParseAgoInverse(a);
      OneWeekText();
      Render(a)
    case Unparseable => TimeSinceText(e)
  }
}
