/**
 * Display helpers for prayer topics: the status label and badge colour,
 * the share of answered topics, the "n minutes ago" caption, the split of
 * a list by status, and the `YYYY.MM.DD` date.
 *
 * The status is whatever string the server sent: the two known values, or
 * any other, which the `default` branches handle. Time is given as the
 * milliseconds elapsed since the topic's date, and a date as the local
 * calendar fields `Date` reports for it, or `None` for an invalid date.
 */
module PrayerTopicUtils {
  import opened JsValues

  datatype Status = Praying | Answered | Unknown(wire: string)

  datatype PrayerTopic = PrayerTopic(id: string, title: string, status: Status, answeredAt: Option<string>,
                                     reflection: Option<string>, createdAt: string, updatedAt: string)

  /** `getStatusLabel(status)`: the Korean label, or the raw status for one it does not know. */
  function StatusLabel(status: Status): (shown: string)
    ensures status == Praying ==> shown == "기도 중"
    ensures status == Answered ==> shown == "응답됨"
    ensures status.Unknown? ==> shown == status.wire
  {
    match status
    case Praying => "기도 중"
    case Answered => "응답됨"
    case Unknown(wire) => wire
  }

  /** `getStatusColorClass(status)`: a badge colour for every status, grey for an unknown one. */
  function StatusColorClass(status: Status): (classes: string)
    ensures status == Praying ==> classes == "text-soft-brown bg-warm-beige"
    ensures status == Answered ==> classes == "text-deep-brown bg-sand"
    ensures status.Unknown? ==> classes == "text-gray-600 bg-gray-100"
  {
    match status
    case Praying => "text-soft-brown bg-warm-beige"
    case Answered => "text-deep-brown bg-sand"
    case Unknown(_) => "text-gray-600 bg-gray-100"
  }

  /** `topics.filter((t) => t.status === status)`. */
  function OfStatus(topics: seq<PrayerTopic>, status: Status): (kept: seq<PrayerTopic>)
    ensures |kept| <= |topics|
    ensures forall k :: 0 <= k < |kept| ==> kept[k].status == status
    ensures forall t :: t in kept <==> t in topics && t.status == status
  {
    if topics == [] then []
    else (if topics[0].status == status then [topics[0]] else []) + OfStatus(topics[1..], status)
  }

  /** Filtering a concatenation filters each part: the kept topics stay in input order. */
  lemma {:induction false} OfStatusAppend(a: seq<PrayerTopic>, b: seq<PrayerTopic>, status: Status)
    ensures OfStatus(a + b, status) == OfStatus(a, status) + OfStatus(b, status)
  {
    if a == [] {
      assert a + b == b;
    } else {
      assert (a + b)[1..] == a[1..] + b;
      OfStatusAppend(a[1..], b, status);
    }
  }

  datatype ByStatus = ByStatus(praying: seq<PrayerTopic>, answered: seq<PrayerTopic>)

  /** `groupByStatus(topics)`: the praying topics and the answered topics, each in input order. */
  function GroupByStatus(topics: seq<PrayerTopic>): (groups: ByStatus)
    ensures forall t :: t in groups.praying <==> t in topics && t.status == Praying
    ensures forall t :: t in groups.answered <==> t in topics && t.status == Answered
    ensures groups.praying == OfStatus(topics, Praying) && groups.answered == OfStatus(topics, Answered)
  {
    ByStatus(OfStatus(topics, Praying), OfStatus(topics, Answered))
  }

  /** With only the two known statuses, every topic lands in exactly one group. */
  lemma {:induction false} GroupByStatusPartition(topics: seq<PrayerTopic>)
    requires forall k :: 0 <= k < |topics| ==> !topics[k].status.Unknown?
    ensures multiset(GroupByStatus(topics).praying) + multiset(GroupByStatus(topics).answered) == multiset(topics)
    ensures |GroupByStatus(topics).praying| + |GroupByStatus(topics).answered| == |topics|
  {
    if topics != [] {
      var t, rest := topics[0], topics[1..];
      GroupByStatusPartition(rest);
      assert topics == [t] + rest;
      assert multiset(topics) == multiset{t} + multiset(rest);
      var praying, answered := OfStatus(rest, Praying), OfStatus(rest, Answered);
      if t.status == Praying {
        assert OfStatus(topics, Praying) == [t] + praying;
        assert OfStatus(topics, Answered) == answered;
      } else {
        assert OfStatus(topics, Praying) == praying;
        assert OfStatus(topics, Answered) == [t] + answered;
      }
    }
  }

  /** The number of answered topics. */
  function AnsweredCount(topics: seq<PrayerTopic>): (count: nat)
    ensures count <= |topics|
  {
    |OfStatus(topics, Answered)|
  }

  /**
   * `calculateAnsweredRate(topics)`: 0 for no topics, otherwise the
   * percentage answered rounded half up, computed here on integers.
   */
  function AnsweredRate(topics: seq<PrayerTopic>): (rate: nat)
    ensures |topics| == 0 ==> rate == 0
    ensures |topics| > 0 ==>
              2 * |topics| * rate <= 200 * AnsweredCount(topics) + |topics| < 2 * |topics| * (rate + 1)
  {
    if |topics| == 0 then 0
    else
      var n := |topics|;
      var rate := (200 * AnsweredCount(topics) + n) / (2 * n);
      RoundedQuotient(200 * AnsweredCount(topics) + n, 2 * n);
      rate
  }

  /** The defining inequalities of a quotient by a positive divisor. */
  lemma RoundedQuotient(x: nat, d: nat)
    requires d > 0
    ensures d * (x / d) <= x < d * (x / d + 1)
  {
  }

  /** The rate is a percentage: 0 with nothing answered, 100 with everything answered, never above. */
  lemma AnsweredRateBounds(topics: seq<PrayerTopic>)
    ensures AnsweredRate(topics) <= 100
    ensures AnsweredCount(topics) == 0 ==> AnsweredRate(topics) == 0
    ensures |topics| > 0 && AnsweredCount(topics) == |topics| ==> AnsweredRate(topics) == 100
  {
    var n := |topics|;
    if n > 0 {
      var a := AnsweredCount(topics);
      QuotientBelow(200 * a + n, 2 * n, 101);
      if a == 0 {
        QuotientBelow(200 * a + n, 2 * n, 1);
      }
      if a == n {
        QuotientAtLeast(200 * a + n, 2 * n, 100);
      }
    }
  }

  lemma QuotientBelow(x: nat, d: nat, k: nat)
    requires d > 0 && x < d * k
    ensures x / d < k
  {
    RoundedQuotient(x, d);
    if x / d >= k {
      MultiplyMonotone(d, k, x / d);
    }
  }

  lemma QuotientAtLeast(x: nat, d: nat, k: nat)
    requires d > 0 && d * k <= x
    ensures k <= x / d
  {
    RoundedQuotient(x, d);
    if x / d < k {
      MultiplyMonotone(d, x / d + 1, k);
    }
  }

  lemma MultiplyMonotone(c: nat, x: nat, y: nat)
    requires x <= y
    ensures c * x <= c * y
  {
  }

  // ---------------------------------------------------------------------
  // Relative time

  /** The bucket `getRelativeTime` puts an elapsed time in, with the number it shows. */
  datatype Elapsed =
    | JustNow
    | MinutesAgo(minutes: nat)
    | HoursAgo(hours: nat)
    | DaysAgo(days: nat)
    | WeeksAgo(weeks: nat)
    | MonthsAgo(months: nat)
    | YearsAgo(years: nat)

  /**
   * The bucket for `diffMs` milliseconds: each unit is the floor of the one
   * below it, as `Math.floor` rounds, so a date in the future is "just now".
   */
  function RelativeTime(diffMs: int): (e: Elapsed)
    ensures e == JustNow <==> diffMs < 60000
    ensures e.MinutesAgo? <==> 60000 <= diffMs < 3600000
    ensures e.HoursAgo? <==> 3600000 <= diffMs < 86400000
    ensures e.DaysAgo? <==> 86400000 <= diffMs < 7 * 86400000
    ensures e.WeeksAgo? <==> 7 * 86400000 <= diffMs < 30 * 86400000
    ensures e.MonthsAgo? <==> 30 * 86400000 <= diffMs < 365 * 86400000
    ensures e.YearsAgo? <==> 365 * 86400000 <= diffMs
    ensures e.MinutesAgo? ==> e.minutes == diffMs / 60000
    ensures e.HoursAgo? ==> e.hours == diffMs / 3600000
    ensures e.DaysAgo? ==> e.days == diffMs / 86400000
    ensures e.WeeksAgo? ==> e.weeks == diffMs / 86400000 / 7
    ensures e.MonthsAgo? ==> e.months == diffMs / 86400000 / 30
    ensures e.YearsAgo? ==> e.years == diffMs / 86400000 / 365
  {
    var seconds := diffMs / 1000;
    var minutes := seconds / 60;
    var hours := minutes / 60;
    var days := hours / 24;
    if seconds < 60 then JustNow
    else if minutes < 60 then MinutesAgo(minutes)
    else if hours < 24 then HoursAgo(hours)
    else if days < 7 then DaysAgo(days)
    else if days < 30 then WeeksAgo(days / 7)
    else if days < 365 then MonthsAgo(days / 30)
    else YearsAgo(days / 365)
  }

  /** The number shown is at least 1, and weeks and months stay below the next unit. */
  lemma RelativeTimeNumbers(diffMs: int)
    ensures var e := RelativeTime(diffMs);
      (e.MinutesAgo? ==> 1 <= e.minutes < 60) && (e.HoursAgo? ==> 1 <= e.hours < 24)
      && (e.DaysAgo? ==> 1 <= e.days < 7) && (e.WeeksAgo? ==> 1 <= e.weeks <= 4)
      && (e.MonthsAgo? ==> 1 <= e.months <= 12) && (e.YearsAgo? ==> e.years >= 1)
  {
  }

  /** Buckets in order of size. */
  function Rank(e: Elapsed): nat
  {
    match e
    case JustNow => 0
    case MinutesAgo(_) => 1
    case HoursAgo(_) => 2
    case DaysAgo(_) => 3
    case WeeksAgo(_) => 4
    case MonthsAgo(_) => 5
    case YearsAgo(_) => 6
  }

  /** An older date never falls in a smaller bucket. */
  lemma RelativeTimeMonotone(a: int, b: int)
    requires a <= b
    ensures Rank(RelativeTime(a)) <= Rank(RelativeTime(b))
  {
  }

  /** `getRelativeTime(dateString)`, given the elapsed milliseconds. */
  function RelativeTimeText(diffMs: int): (text: string)
    ensures RelativeTime(diffMs) == JustNow ==> text == "방금 전"
    ensures RelativeTime(diffMs) != JustNow ==> |text| > 0 && IsAsciiDigit(text[0])
  {
    match RelativeTime(diffMs)
    case JustNow => "방금 전"
    case MinutesAgo(n) => NatToString(n) + "분 전"
    case HoursAgo(n) => NatToString(n) + "시간 전"
    case DaysAgo(n) => NatToString(n) + "일 전"
    case WeeksAgo(n) => NatToString(n) + "주 전"
    case MonthsAgo(n) => NatToString(n) + "개월 전"
    case YearsAgo(n) => NatToString(n) + "년 전"
  }

  /** `text` is a decimal numeral reading `n` followed by `suffix`. */
  predicate ReadsAs(text: string, n: nat, suffix: string)
  {
    |text| > |suffix| && text[|text| - |suffix|..] == suffix
    && (forall i :: 0 <= i < |text| - |suffix| ==> IsAsciiDigit(text[i]))
    && DecimalValue(text[..|text| - |suffix|]) == n
  }

  /** The numeral followed by the unit. */
  lemma ReadsAsNumeral(n: nat, suffix: string)
    ensures ReadsAs(NatToString(n) + suffix, n, suffix)
  {
    var text := NatToString(n) + suffix;
    assert text[..|text| - |suffix|] == NatToString(n);
    assert text[|text| - |suffix|..] == suffix;
    NatToStringValue(n);
  }

  /** Past a minute, the caption reads back as the elapsed time counted in its bucket's unit, then that unit. */
  lemma RelativeTimeTextReadsBack(diffMs: int)
    ensures 60000 <= diffMs < 3600000 ==> ReadsAs(RelativeTimeText(diffMs), diffMs / 60000, "분 전")
    ensures 3600000 <= diffMs < 86400000 ==> ReadsAs(RelativeTimeText(diffMs), diffMs / 3600000, "시간 전")
    ensures 86400000 <= diffMs < 7 * 86400000 ==> ReadsAs(RelativeTimeText(diffMs), diffMs / 86400000, "일 전")
    ensures 7 * 86400000 <= diffMs < 30 * 86400000 ==>
              ReadsAs(RelativeTimeText(diffMs), diffMs / 86400000 / 7, "주 전")
    ensures 30 * 86400000 <= diffMs < 365 * 86400000 ==>
              ReadsAs(RelativeTimeText(diffMs), diffMs / 86400000 / 30, "개월 전")
    ensures 365 * 86400000 <= diffMs ==> ReadsAs(RelativeTimeText(diffMs), diffMs / 86400000 / 365, "년 전")
  {
    match RelativeTime(diffMs)
    case JustNow =>
    case MinutesAgo(n) => ReadsAsNumeral(n, "분 전");
    case HoursAgo(n) => ReadsAsNumeral(n, "시간 전");
    case DaysAgo(n) => ReadsAsNumeral(n, "일 전");
    case WeeksAgo(n) => ReadsAsNumeral(n, "주 전");
    case MonthsAgo(n) => ReadsAsNumeral(n, "개월 전");
    case YearsAgo(n) => ReadsAsNumeral(n, "년 전");
  }

  /** The caption for an hour and a half ago, and for a date in the future. */
  lemma RelativeTimeExamples()
    ensures RelativeTimeText(5400000) == "1시간 전"
    ensures RelativeTimeText(-5000) == "방금 전"
    ensures RelativeTimeText(45 * 86400000) == "1개월 전"
  {
  }

  // ---------------------------------------------------------------------
  // Dates

  /** The local calendar fields of a valid `Date`: `getFullYear()`, `getMonth() + 1`, `getDate()`. */
  datatype CalendarDate = CalendarDate(year: nat, month: nat, day: nat)

  /** `String(n).padStart(2, '0')`. */
  function Pad2(n: nat): (s: string)
    ensures forall i :: 0 <= i < |s| ==> IsAsciiDigit(s[i])
    ensures n < 100 ==> |s| == 2 && DecimalValue(s) == n
  {
    var digits := NatToString(n);
    NatToStringValue(n);
    if |digits| < 2 then
      assert DecimalValue("0" + digits) == DecimalValue(digits) by {
        assert ("0" + digits)[..1] == "0";
      }
      "0" + digits
    else digits
  }

  /** `formatDate(dateString)`: `YYYY.MM.DD`, or `NaN.NaN.NaN` for an invalid date. */
  function FormatDate(date: Option<CalendarDate>): (text: string)
    ensures date.None? ==> text == "NaN.NaN.NaN"
  {
    match date
    case None => "NaN.NaN.NaN"
    case Some(d) => NatToString(d.year) + "." + Pad2(d.month) + "." + Pad2(d.day)
  }

  /** A four-digit year gives ten characters, and each field reads back from its place. */
  lemma FormatDateFields(d: CalendarDate)
    requires 1000 <= d.year < 10000 && 1 <= d.month <= 12 && 1 <= d.day <= 31
    ensures var text := FormatDate(Some(d));
      |text| == 10 && text[4] == '.' && text[7] == '.'
      && (forall i :: 0 <= i < 4 ==> IsAsciiDigit(text[i])) && DecimalValue(text[..4]) == d.year
      && (forall i :: 5 <= i < 7 ==> IsAsciiDigit(text[i])) && DecimalValue(text[5..7]) == d.month
      && (forall i :: 8 <= i < 10 ==> IsAsciiDigit(text[i])) && DecimalValue(text[8..]) == d.day
  {
    NatToStringValue(d.year);
    var text := FormatDate(Some(d));
    assert text[..4] == NatToString(d.year);
    assert text[5..7] == Pad2(d.month);
    assert text[8..] == Pad2(d.day);
  }
}
