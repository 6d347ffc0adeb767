/**
 * `formatRelativeTime`: the age of a timestamp, bucketed by floor division of
 * the millisecond difference into hours and then days.
 */
module RelativeTime {
  import opened Wrappers

  const MsPerHour: int := 1000 * 60 * 60
  const MsPerDay: int := 24 * MsPerHour

  /** The four outcomes; `LocaleDate` stands for `date.toLocaleDateString()`. */
  datatype Label = JustNow | HoursAgo(hours: nat) | DaysAgo(days: nat) | LocaleDate

  /**
   * `formatRelativeTime(date)` read at clock `now`. `Math.floor` of a quotient
   * by a positive divisor is Dafny's `/` on `int`, also for a negative `diff`
   * (a date in the future).
   */
  function FormatRelativeTime(now: int, date: int): Label {
    var diff := now - date;
    var hours := diff / MsPerHour;
    var days := hours / 24;
    if hours < 1 then JustNow
    else if hours < 24 then HoursAgo(hours)
    else if days < 7 then DaysAgo(days)
    else LocaleDate
  }

  /**
   * The buckets as ranges of the difference: under an hour is "Just now"; a
   * label of N hours or N days means the difference lies in the N-th whole hour
   * or day; a week or more falls back to the locale date.
   */
  lemma FormatRelativeTimeBuckets(now: int, date: int)
    ensures FormatRelativeTime(now, date) == JustNow <==> now - date < MsPerHour
    ensures FormatRelativeTime(now, date).HoursAgo? <==> MsPerHour <= now - date < MsPerDay
    ensures FormatRelativeTime(now, date).DaysAgo? <==> MsPerDay <= now - date < 7 * MsPerDay
    ensures FormatRelativeTime(now, date) == LocaleDate <==> 7 * MsPerDay <= now - date
    ensures FormatRelativeTime(now, date).HoursAgo? ==>
      var h := FormatRelativeTime(now, date).hours;
      1 <= h < 24 && h * MsPerHour <= now - date < (h + 1) * MsPerHour
    ensures FormatRelativeTime(now, date).DaysAgo? ==>
      var d := FormatRelativeTime(now, date).days;
      1 <= d < 7 && d * MsPerDay <= now - date < (d + 1) * MsPerDay
  {
    var diff := now - date;
    var hours := diff / MsPerHour;
    assert hours * MsPerHour <= diff < (hours + 1) * MsPerHour;
    var days := hours / 24;
    assert days * 24 <= hours < (days + 1) * 24;
    assert days * MsPerDay <= diff < (days + 1) * MsPerDay;
  }

  /** The hours of age a label stands for, at least. */
  function Rank(l: Label): int {
    match l
    case JustNow => 0
    case HoursAgo(h) => h
    case DaysAgo(d) => 24 * d
    case LocaleDate => 24 * 7
  }

  /** An older timestamp never gets a fresher bucket. */
  lemma FormatRelativeTimeMonotone(now: int, older: int, newer: int)
    requires older <= newer
    ensures Rank(FormatRelativeTime(now, newer)) <= Rank(FormatRelativeTime(now, older))
  {
    FormatRelativeTimeBuckets(now, older);
    FormatRelativeTimeBuckets(now, newer);
  }

  predicate IsDigit(c: char) {
    '0' <= c <= '9'
  }

  /** The decimal numeral of `n`, as a template literal prints a non-negative integer: no leading zero. */
  function NatToString(n: nat): (s: string)
    ensures |s| >= 1 && forall i :: 0 <= i < |s| ==> IsDigit(s[i])
    ensures s[0] == '0' ==> n == 0
    decreases n
  {
    if n < 10 then [('0' as int + n) as char]
    else NatToString(n / 10) + [('0' as int + n % 10) as char]
  }

  /** Reads back a numeral. */
  function ParseNat(s: string): nat
    requires forall i :: 0 <= i < |s| ==> IsDigit(s[i])
    decreases |s|
  {
    if s == [] then 0
    else
      assert IsDigit(s[|s| - 1]);
      10 * ParseNat(s[..|s| - 1]) + (s[|s| - 1] as int - '0' as int)
  }

  lemma {:induction false} ParseNatToString(n: nat)
    ensures ParseNat(NatToString(n)) == n
    decreases n
  {
    var s := NatToString(n);
    if n >= 10 {
      ParseNatToString(n / 10);
      assert s[..|s| - 1] == NatToString(n / 10);
    }
  }

  /** The text shown in the session list; `localeDate` is what `toLocaleDateString` returned. */
  function Render(l: Label, localeDate: string): string {
    match l
    case JustNow => "Just now"
    case HoursAgo(h) => NatToString(h) + "h ago"
    case DaysAgo(d) => NatToString(d) + "d ago"
    case LocaleDate => localeDate
  }

  /** Reads a rendered label back; the locale date is not recognised. */
  function ParseLabel(s: string): Option<Label> {
    if s == "Just now" then Some(JustNow)
    else if |s| >= 6 && (s[|s| - 5..] == "h ago" || s[|s| - 5..] == "d ago")
         && forall i :: 0 <= i < |s| - 5 ==> IsDigit(s[i])
    then
      var n := ParseNat(s[..|s| - 5]);
      if s[|s| - 5] == 'h' then Some(HoursAgo(n)) else Some(DaysAgo(n))
    else None
  }

  /** Rendering is lossless for every label other than the locale-date fallback. */
  lemma {:induction false} ParseRender(l: Label, localeDate: string)
    requires !l.LocaleDate?
    ensures ParseLabel(Render(l, localeDate)) == Some(l)
  {
    match l
    case JustNow =>
    case HoursAgo(h) =>
      var s := Render(l, localeDate);
      var digits := NatToString(h);
      assert s[..|s| - 5] == digits && s[|s| - 5..] == "h ago";
      assert s != "Just now" by { assert s[0] == digits[0]; }
      ParseNatToString(h);
    case DaysAgo(d) =>
      var s := Render(l, localeDate);
      var digits := NatToString(d);
      assert s[..|s| - 5] == digits && s[|s| - 5..] == "d ago";
      assert s != "Just now" by { assert s[0] == digits[0]; }
      ParseNatToString(d);
  }
}
