/**
 * The relative-time label of the conversation list: the elapsed time between
 * a message date and now, in whole hours, bucketed into "now", hours, days
 * and weeks.
 */
module Messages {
  import opened JsValues

  const MillisPerHour: int := 1000 * 60 * 60

  /** `Math.floor((now - date) / 3600000)` over integer milliseconds. */
  function HoursBetween(nowMs: int, dateMs: int): (h: int)
    ensures h * MillisPerHour <= nowMs - dateMs < (h + 1) * MillisPerHour
  {
    (nowMs - dateMs) / MillisPerHour
  }

  /** The bucket a label shows; `NotANumber` is what an unparseable date string gives. */
  datatype Ago = Now | HoursAgo(hours: nat) | DaysAgo(days: nat) | WeeksAgo(weeks: nat) | NotANumber

  /** The chain of early returns of `formatTime`, on the elapsed whole hours `h`. */
  function Bucket(h: int): (a: Ago)
    ensures a == Now <==> h < 1
    ensures a.HoursAgo? <==> 1 <= h < 24
    ensures a.HoursAgo? ==> a.hours == h
    ensures a.DaysAgo? <==> 24 <= h < 168
    ensures a.DaysAgo? ==> 1 <= a.days <= 6 && 24 * a.days <= h < 24 * (a.days + 1)
    ensures a.WeeksAgo? <==> 168 <= h
    ensures a.WeeksAgo? ==> 1 <= a.weeks && 168 * a.weeks <= h < 168 * (a.weeks + 1)
    ensures a != NotANumber
  {
    if h < 1 then Now
    else if h < 24 then HoursAgo(h)
    else if h < 168 then DaysAgo(h / 24)
    else WeeksAgo(h / 168)
  }

  /** The bucket for a message date (`None` for an invalid date, whose time is `NaN`). */
  function Elapsed(nowMs: int, dateMs: Option<int>): (a: Ago)
    ensures a == NotANumber <==> dateMs.None?
    ensures dateMs.Some? ==> (a == Now <==> nowMs - dateMs.value < MillisPerHour)
    ensures dateMs.Some? && a.HoursAgo? ==>
              a.hours * MillisPerHour <= nowMs - dateMs.value < (a.hours + 1) * MillisPerHour
  {
    match dateMs
    case None => NotANumber
    case Some(d) => Bucket(HoursBetween(nowMs, d))
  }

  function DigitChar(d: nat): char
    requires d < 10
  {
    (d + '0' as int) as char
  }

  predicate IsDigit(c: char) {
    '0' <= c <= '9'
  }

  predicate AllDigits(s: string) {
    forall i | 0 <= i < |s| :: IsDigit(s[i])
  }

  /** A decimal numeral without leading zeros. */
  predicate CanonicalDigits(t: string) {
    t != [] && AllDigits(t) && (|t| == 1 || t[0] != '0')
  }

  /** The decimal form of `n`, as a template literal prints a non-negative integer: no leading zero. */
  function NatToString(n: nat): (s: string)
    ensures CanonicalDigits(s)
    ensures s[0] == '0' <==> n == 0
  {
    if n < 10 then [DigitChar(n)] else NatToString(n / 10) + [DigitChar(n % 10)]
  }

  /** The value of a string of decimal digits. */
  function DigitsValue(s: string): nat
    requires AllDigits(s)
  {
    if s == [] then 0 else DigitsValue(s[..|s| - 1]) * 10 + (s[|s| - 1] as int - '0' as int)
  }

  /** Reading a printed number back gives the number. */
  lemma {:induction false} DigitsValueOfNatToString(n: nat)
    ensures DigitsValue(NatToString(n)) == n
  {
    var s := NatToString(n);
    if n >= 10 {
      assert s[..|s| - 1] == NatToString(n / 10);
      DigitsValueOfNatToString(n / 10);
    }
  }

  /** The text `formatTime` returns for a bucket. */
  function Render(a: Ago): string {
    match a
    case Now => "now"
    case HoursAgo(n) => NatToString(n) + "h"
    case DaysAgo(n) => NatToString(n) + "d"
    case WeeksAgo(n) => NatToString(n) + "w"
    case NotANumber => "NaNw"
  }

  /** Reads a label back into its bucket. */
  function ParseAgo(s: string): Option<Ago> {
    if s == "now" then Some(Now)
    else if s == "NaNw" then Some(NotANumber)
    else if |s| >= 2 && CanonicalDigits(s[..|s| - 1]) then
      var n := DigitsValue(s[..|s| - 1]);
      match s[|s| - 1]
      case 'h' => Some(HoursAgo(n))
      case 'd' => Some(DaysAgo(n))
      case 'w' => Some(WeeksAgo(n))
      case _ => None
    else None
  }

  /** Every label reads back as the bucket it was rendered from, so no two buckets share a label. */
  lemma RenderRoundTrip(a: Ago)
    ensures ParseAgo(Render(a)) == Some(a)
  {
    match a
    case Now =>
    case NotANumber =>
    case HoursAgo(n) => ParseNumberWithUnit(n, 'h');
    case DaysAgo(n) => ParseNumberWithUnit(n, 'd');
    case WeeksAgo(n) => ParseNumberWithUnit(n, 'w');
  }

  /** A printed number followed by a unit letter parses back to that number and unit. */
  lemma ParseNumberWithUnit(n: nat, unit: char)
    requires unit in "hdw"
    ensures ParseAgo(NatToString(n) + [unit])
         == Some(if unit == 'h' then HoursAgo(n) else if unit == 'd' then DaysAgo(n) else WeeksAgo(n))
  {
    var s := NatToString(n) + [unit];
    assert s[..|s| - 1] == NatToString(n);
    assert IsDigit(s[0]);
    assert s != "now" && s != "NaNw";
    DigitsValueOfNatToString(n);
    assert s[|s| - 1] == unit;
  }

  /** A numeral without leading zeros is the printed form of its value. */
  lemma {:induction false} NatToStringOfDigitsValue(t: string)
    requires CanonicalDigits(t)
    ensures NatToString(DigitsValue(t)) == t
  {
    var last := t[|t| - 1] as int - '0' as int;
    if |t| > 1 {
      var p := t[..|t| - 1];
      assert p[0] == t[0];
      LeadingNonZeroIsPositive(p);
      NatToStringOfDigitsValue(p);
      var n := DigitsValue(t);
      assert n == DigitsValue(p) * 10 + last;
      assert n / 10 == DigitsValue(p) && n % 10 == last;
      assert t == p + [DigitChar(last)];
    }
  }

  lemma {:induction false} LeadingNonZeroIsPositive(p: string)
    requires p != [] && AllDigits(p) && p[0] != '0'
    ensures DigitsValue(p) > 0
  {
    if |p| > 1 {
      assert p[..|p| - 1][0] == p[0];
      LeadingNonZeroIsPositive(p[..|p| - 1]);
    }
  }

  /** Two strings that read back as the same bucket are the same string: a bucket has exactly one label. */
  lemma LabelIsUnique(s1: string, s2: string)
    requires ParseAgo(s1).Some? && ParseAgo(s1) == ParseAgo(s2)
    ensures s1 == s2
  {
    if s1 != "now" && s1 != "NaNw" && s2 != "now" && s2 != "NaNw" {
      var p1, p2 := s1[..|s1| - 1], s2[..|s2| - 1];
      NatToStringOfDigitsValue(p1);
      NatToStringOfDigitsValue(p2);
      assert p1 == p2;
      assert s1 == p1 + [s1[|s1| - 1]] && s2 == p2 + [s2[|s2| - 1]];
    }
  }

  /** `formatTime(dateString)` at time `nowMs`; the label always names its bucket unambiguously. */
  function FormatTime(nowMs: int, dateMs: Option<int>): (s: string)
    ensures ParseAgo(s) == Some(Elapsed(nowMs, dateMs))
  {
    RenderRoundTrip(Elapsed(nowMs, dateMs));
    Render(Elapsed(nowMs, dateMs))
  }

  /** A date in the future (negative elapsed time) is shown as "now", like anything under an hour. */
  lemma FutureDateIsNow(nowMs: int, dateMs: int)
    requires dateMs > nowMs
    ensures FormatTime(nowMs, Some(dateMs)) == "now"
  {
    var h := HoursBetween(nowMs, dateMs);
    assert h * MillisPerHour < 0;
  }
}
