# timeSince — a verified model of the blog's relative-time formatter

The blog theme's script `assets/js/init.js` defines `timeSince(date)`, which
turns a post's date into text such as `"3 days ago"`. It measures how long ago
the date was in whole seconds. It then walks a fixed ladder of units from the
largest down: years of 365 days, months of 30 days, days, hours and minutes.
It answers with the first of these whose whole count exceeds one, except that
from 7 days on the days are shown as weeks, where the count can be 1 ("1 week
ago", "1 weeks ago"). Anything under two minutes is reported in raw seconds.

The model has two modules:

- `TimeSince` (`timesince.dfy`): the elapsed time as input (`Elapsed`), the
  ladder on whole seconds (`Classify`, giving an `Ago(count, unit)`), the
  literal suffixes (`Suffix`), the text (`Render`, `TimeSinceText`) and a
  reader for that text (`ParseAgo`), which serves as its inverse.
- `Decimal` (`decimal.dfy`): JavaScript's printing of an integral number
  (`IntToString`) and its inverse (`ParseInt`).

The browser computes the elapsed time as `new Date() - new Date(date)`, in
milliseconds. The model takes that difference as an integer (`Millis(ms)`).
If the date string does not parse, the difference is NaN. Every `> 1` test
then fails and the text is `"NaN seconds ago"`; the model keeps that case as
`Unparseable`.

JavaScript divides in floating point and the model divides in exact integers.
The two agree on every input a browser can produce, by the following argument
(reasoned, not proved in Dafny):

- `Math.floor(x / c)` with a positive constant `c` is Dafny's `x / c`, also for
  negative `x` (a date in the future).
- For `|ms| <= 2^53`, the quotient `ms / 1000` is within `2^44`. There half a
  unit in the last place is below `0.001`, so rounding never reaches the next
  integer.
- The later `Math.floor(seconds / c)` at init.js:26, 31, 35, 44 and 48 divide
  an integer of at most `2^44` by `c <= 31536000`. A quotient that is not an
  integer lies at least `1/c` from the next integer. That gap is larger than
  half a unit in the last place of the quotient, so these floors are exact too.
- The week tests at init.js:37 and 39 divide a small day count by 7 and compare
  the quotient with 1 and 2. The model states these tests over `real`
  (`WeeksTest`, `WeekTest`) and proves what they mean on integers.

## Model

| member | source | states |
|---|---|---|
| TimeSince.SecondsOf | assets/js/init.js:24 | the whole seconds `s` satisfy `s*1000 <= ms < (s+1)*1000`, so the value is rounded down, also for negative elapsed time |
| TimeSince.WeeksTest | assets/js/init.js:37 | the test `interval/7 > 1`, taken over fractions, holds exactly when the day count exceeds 7 |
| TimeSince.WeekTest | assets/js/init.js:39 | the second disjunct `interval/7 > 1 && interval/7 < 2` implies the test of line 37, so it is dead; once line 37 has failed, the whole condition holds exactly for 7 days |
| TimeSince.WeeksOfDays | assets/js/init.js:35-38 | flooring the whole days by 7 gives the whole weeks (604800 s) in the elapsed seconds |
| TimeSince.Classify | assets/js/init.js:26-52 | every answer is the floored count of its unit (`count*k <= s < (count+1)*k`); each unit is chosen exactly in its band (years for `s >= 63072000`, months for `5184000 <= s < 63072000`, weeks for 8 days up to the months band, week for exactly 7 days, days for 2-6 days, hours for `7200 <= s < 172800`, minutes for `120 <= s < 7200`, seconds below 120); the counts lie in years >= 2, months 2-24, weeks 1-8, week 1, days 2-6, hours 2-47, minutes 2-119; the seconds fallback reports the raw value, which may be 0, 1 or negative |
| TimeSince.NeverOneYear | assets/js/init.js:26-34 | "1 years ago" never appears: one to two years is reported in months |
| TimeSince.OneWeeksAgo | assets/js/init.js:35-38 | the answer is one "weeks" exactly for 8 to 13 whole days |
| TimeSince.EightDaysIsOneWeeks | assets/js/init.js:37-38 | an elapsed time of exactly eight days renders as `"1 weeks ago"` |
| TimeSince.ClassifyMonotone | assets/js/init.js:26-52 | more elapsed time never gives a smaller unit (seconds < minutes < hours < days < week < weeks < months < years), and within one unit never a smaller count |
| TimeSince.Suffix | assets/js/init.js:29-52 | each of the eight literal suffixes starts with the space after the count and ends in `" ago"` |
| TimeSince.UnitOfSuffix | assets/js/init.js:29-52 | a recognised suffix is the literal suffix of the unit it names, and a string it rejects is no unit's suffix |
| TimeSince.Render | assets/js/init.js:29-52 | the text `count + suffix` reads back as the same count and unit |
| TimeSince.ParseAgoInverse | assets/js/init.js:29-52 | a text that reads back as an answer is exactly the rendering of that answer, so the reader accepts no leading zeros, no bare or `-0` sign and no other spelling |
| TimeSince.RenderInjective | assets/js/init.js:29-52 | two different answers never produce the same text |
| TimeSince.TimeSinceText | assets/js/init.js:22-53 | for a parsed date, the text reads back as the classification of the whole elapsed seconds, and no other text does; for an unparseable date the text is `"NaN seconds ago"`, which reads back as no answer |
| TimeSince.ClassifyIntended | assets/js/init.js:37-40 | the corrected week sub-case keeps the floor property and uses "week" exactly for 7 to 13 days and "weeks" from 14 days; in the week units the count is 1 exactly when the unit is singular; it differs from the code only for 8 to 13 days |
| TimeSince.ClassifyIntendedMonotone | assets/js/init.js:26-52 | the corrected ladder is monotone in elapsed time in the same sense as the code's |
| TimeSince.TimeSinceTextIntended | assets/js/init.js:22-53 | the corrected text reads back as the corrected classification, no other text does, and it says "1 week ago" for 8 to 13 days |
| Decimal.NatToString | assets/js/init.js:29 | a natural number is printed as at least one decimal digit, with no leading zero |
| Decimal.IntToString | assets/js/init.js:29 | the text is a well-formed integer: it begins with `-` exactly for a negative number, the rest is decimal digits, with no leading zero, and there is no `-0` |
| Decimal.NatRoundTrip | assets/js/init.js:29 | reading back the digits of a natural number gives that number |
| Decimal.IntRoundTrip | assets/js/init.js:29 | reading back a printed integer gives that integer, also for negative counts |
| Decimal.NatTextRoundTrip | assets/js/init.js:29 | printing the value of a well-formed digit string gives that string back |
| Decimal.IntTextRoundTrip | assets/js/init.js:29 | every well-formed integer text is what is printed for its value, so printing is a bijection onto those texts |
| Decimal.IntToStringInjective | assets/js/init.js:29 | different integers are printed differently |
| Decimal.IntToStringHasNoSpace | assets/js/init.js:29 | a printed integer contains no space, so the count and the suffix separate at the first space |

## Left out

- Reading the clock and parsing the date string (`new Date()`, `new Date(date)`, init.js:24): system time and the browser's date parser. The model takes the elapsed milliseconds, or `Unparseable` for NaN, as its input.
- Floating-point arithmetic: the model divides exact integers. The argument above for why this gives the same results is not itself proved in Dafny.
- Decimal.IntToString: models JavaScript's number printing only for integral values. Exponent notation, which starts at 10^21, cannot occur for a date difference.
- The jQuery ready handler at init.js:1-18 (dropdown, width and side-navigation setup): user-interface wiring with no logic.
- The other files of the theme (`assets/js/main.js`, `assets/js/data.js`, `rafts/assets/js/data.js`, `_plugins/DateFilter.rb`): event listeners, a build-time template, a static data object and a wrapper over Ruby's date parser and `sort_by`. No search or indexing code appears in them, so none is modelled.

## Findings

| source | as written | input that shows it | evidently intended | confidence | as-written member | corrected member |
|---|---|---|---|---|---|---|
| assets/js/init.js:37-40 | `interval/7 > 1` is tested first, so the singular branch of line 39 is reached only for exactly 7 days and its second disjunct `interval/7 > 1 && interval/7 < 2` is dead; 8 to 13 days print "1 weeks ago" | an elapsed time of 8 days (691200000 ms) gives `"1 weeks ago"` | 7 to 13 days read "1 week ago" and "weeks" starts at 14 days, as the dead disjunct suggests | medium, not executed | TimeSince.EightDaysIsOneWeeks | TimeSince.ClassifyIntended |

`TimeSinceText` and `Classify` model the code as written. `TimeSinceTextIntended`
and `ClassifyIntended` give the corrected behaviour, with the same floor,
band and monotonicity properties proved.
