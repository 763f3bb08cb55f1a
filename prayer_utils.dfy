/**
 * List and text helpers for prayers: the two-line preview of a prayer's
 * text, and the prayers grouped, filtered and collected by the day they
 * were written.
 *
 * The day of a prayer is the local calendar day of its `createdAt`, as
 * `format(parseISO(createdAt), "yyyy-MM-dd")` writes it; the time zone
 * behind that is not modelled, so the conversion is a parameter `dayOf`.
 * `isSameDay(parseISO(createdAt), targetDate)` is then "the day of the
 * prayer is the day of the target".
 */
module PrayerUtils {
  import opened JsValues
  import opened Text

  datatype Prayer = Prayer(id: string, content: string, createdAt: string, updatedAt: string)

  const DefaultPreviewLength := 100
  const Ellipsis := "..."

  /**
   * `getPreviewText(content, maxLength)`: the trimmed text when it fits,
   * otherwise its first `maxLength` characters and an ellipsis.
   */
  function PreviewText(content: string, maxLength: nat): (preview: string)
    ensures |Trim(content)| <= maxLength ==> preview == Trim(content)
    ensures |Trim(content)| > maxLength ==>
              |preview| == maxLength + |Ellipsis| && preview[..maxLength] == Trim(content)[..maxLength]
              && preview[maxLength..] == Ellipsis
    ensures |preview| <= maxLength + |Ellipsis|
  {
    var trimmed := Trim(content);
    if |trimmed| <= maxLength then trimmed else trimmed[..maxLength] + Ellipsis
  }

  /** Surrounding white space never changes the preview. */
  lemma PreviewIgnoresSurroundingSpace(content: string, maxLength: nat)
    ensures PreviewText(Trim(content), maxLength) == PreviewText(content, maxLength)
  {
    TrimIdempotent(content);
  }

  /** A preview that fits is its own preview. */
  lemma ShortPreviewStable(content: string, maxLength: nat)
    requires |Trim(content)| <= maxLength
    ensures PreviewText(PreviewText(content, maxLength), maxLength) == PreviewText(content, maxLength)
  {
    TrimIdempotent(content);
  }

  // ---------------------------------------------------------------------
  // By day

  /** `filterPrayersByDate(prayers, target)`: the prayers of one day, in input order. */
  function FilterPrayersByDate(prayers: seq<Prayer>, dayOf: string -> string, day: string): (onDay: seq<Prayer>)
    ensures |onDay| <= |prayers|
    ensures forall k :: 0 <= k < |onDay| ==> dayOf(onDay[k].createdAt) == day
    ensures forall p :: p in onDay <==> p in prayers && dayOf(p.createdAt) == day
  {
    if prayers == [] then []
    else (if dayOf(prayers[0].createdAt) == day then [prayers[0]] else []) + FilterPrayersByDate(prayers[1..], dayOf, day)
  }

  /** Filtering a concatenation filters each part. */
  lemma {:induction false} FilterAppend(a: seq<Prayer>, b: seq<Prayer>, dayOf: string -> string, day: string)
    ensures FilterPrayersByDate(a + b, dayOf, day) == FilterPrayersByDate(a, dayOf, day) + FilterPrayersByDate(b, dayOf, day)
  {
    if a == [] {
      assert a + b == b;
    } else {
      assert (a + b)[1..] == a[1..] + b;
      FilterAppend(a[1..], b, dayOf, day);
    }
  }

  /** The days some prayer was written on. */
  function Days(prayers: seq<Prayer>, dayOf: string -> string): set<string>
  {
    set k | 0 <= k < |prayers| :: dayOf(prayers[k].createdAt)
  }

  /** A day no prayer was written on has no prayers. */
  lemma {:induction false} FilterOtherDay(prayers: seq<Prayer>, dayOf: string -> string, day: string)
    requires day !in Days(prayers, dayOf)
    ensures FilterPrayersByDate(prayers, dayOf, day) == []
  {
    if prayers != [] {
      assert dayOf(prayers[0].createdAt) in Days(prayers, dayOf);
      assert Days(prayers[1..], dayOf) <= Days(prayers, dayOf) by {
        forall d | d in Days(prayers[1..], dayOf) ensures d in Days(prayers, dayOf) {
          var k :| 0 <= k < |prayers| - 1 && dayOf(prayers[1..][k].createdAt) == d;
          assert dayOf(prayers[k + 1].createdAt) == d;
        }
      }
      FilterOtherDay(prayers[1..], dayOf, day);
    }
  }

  /**
   * `groupPrayersByDate(prayers)`: one entry per day some prayer was
   * written on, holding that day's prayers in input order.
   */
  method GroupPrayersByDate(prayers: seq<Prayer>, dayOf: string -> string) returns (grouped: map<string, seq<Prayer>>)
    ensures grouped.Keys == Days(prayers, dayOf)
    ensures forall day :: day in grouped ==> grouped[day] == FilterPrayersByDate(prayers, dayOf, day)
  {
    grouped := map[];
    for i := 0 to |prayers|
      invariant grouped.Keys == Days(prayers[..i], dayOf)
      invariant forall day :: day in grouped ==> grouped[day] == FilterPrayersByDate(prayers[..i], dayOf, day)
    {
      var prayer := prayers[i];
      var dateKey := dayOf(prayer.createdAt);
      var existing := if dateKey in grouped then grouped[dateKey] else [];
      var next := grouped[dateKey := existing + [prayer]];
      GroupStep(prayers, i, dayOf, grouped, next);
      grouped := next;
    }
    assert prayers[..|prayers|] == prayers;
  }

  /** One more prayer adds its day to the days seen. */
  lemma DaysStep(prayers: seq<Prayer>, i: nat, dayOf: string -> string)
    requires i < |prayers|
    ensures Days(prayers[..i + 1], dayOf) == Days(prayers[..i], dayOf) + {dayOf(prayers[i].createdAt)}
  {
    forall d | d in Days(prayers[..i + 1], dayOf) ensures d in Days(prayers[..i], dayOf) + {dayOf(prayers[i].createdAt)} {
      var k :| 0 <= k < i + 1 && dayOf(prayers[..i + 1][k].createdAt) == d;
      if k < i {
        assert dayOf(prayers[..i][k].createdAt) == d;
      }
    }
    forall d | d in Days(prayers[..i], dayOf) ensures d in Days(prayers[..i + 1], dayOf) {
      var k :| 0 <= k < i && dayOf(prayers[..i][k].createdAt) == d;
      assert dayOf(prayers[..i + 1][k].createdAt) == d;
    }
    assert dayOf(prayers[..i + 1][i].createdAt) == dayOf(prayers[i].createdAt);
  }

  /** One more prayer joins the end of its own day's prayers and no other day's. */
  lemma FilterStep(prayers: seq<Prayer>, i: nat, dayOf: string -> string, day: string)
    requires i < |prayers|
    ensures FilterPrayersByDate(prayers[..i + 1], dayOf, day)
              == FilterPrayersByDate(prayers[..i], dayOf, day)
                 + (if day == dayOf(prayers[i].createdAt) then [prayers[i]] else [])
  {
    assert prayers[..i + 1] == prayers[..i] + [prayers[i]];
    FilterAppend(prayers[..i], [prayers[i]], dayOf, day);
  }

  /** One turn of the grouping loop keeps its invariant. */
  lemma GroupStep(prayers: seq<Prayer>, i: nat, dayOf: string -> string,
                  grouped: map<string, seq<Prayer>>, next: map<string, seq<Prayer>>)
    requires i < |prayers|
    requires grouped.Keys == Days(prayers[..i], dayOf)
    requires forall day :: day in grouped ==> grouped[day] == FilterPrayersByDate(prayers[..i], dayOf, day)
    requires var dateKey := dayOf(prayers[i].createdAt);
      next == grouped[dateKey := (if dateKey in grouped then grouped[dateKey] else []) + [prayers[i]]]
    ensures next.Keys == Days(prayers[..i + 1], dayOf)
    ensures forall day :: day in next ==> next[day] == FilterPrayersByDate(prayers[..i + 1], dayOf, day)
  {
    var dateKey := dayOf(prayers[i].createdAt);
    DaysStep(prayers, i, dayOf);
    assert next.Keys == grouped.Keys + {dateKey};
    forall day | day in next
      ensures next[day] == FilterPrayersByDate(prayers[..i + 1], dayOf, day)
    {
      FilterStep(prayers, i, dayOf, day);
      if day != dateKey {
        assert next[day] == grouped[day];
      } else if dateKey in grouped {
        assert next[day] == grouped[dateKey] + [prayers[i]];
      } else {
        FilterOtherDay(prayers[..i], dayOf, dateKey);
        assert next[day] == [prayers[i]];
      }
    }
  }

  /** `getPrayerDates(prayers)`: the days some prayer was written on. */
  method GetPrayerDates(prayers: seq<Prayer>, dayOf: string -> string) returns (dates: set<string>)
    ensures dates == Days(prayers, dayOf)
  {
    dates := {};
    for i := 0 to |prayers|
      invariant dates == Days(prayers[..i], dayOf)
    {
      DaysStep(prayers, i, dayOf);
      dates := dates + {dayOf(prayers[i].createdAt)};
    }
    assert prayers[..|prayers|] == prayers;
  }

  // ---------------------------------------------------------------------
  // Every prayer in exactly one group

  /** How many prayers were written on one of `days`. */
  function CountOnDays(prayers: seq<Prayer>, dayOf: string -> string, days: set<string>): nat
  {
    if prayers == [] then 0
    else (if dayOf(prayers[0].createdAt) in days then 1 else 0) + CountOnDays(prayers[1..], dayOf, days)
  }

  /** The total size of the groups for `days`. */
  ghost function GroupSizes(grouped: map<string, seq<Prayer>>, days: set<string>): nat
    requires days <= grouped.Keys
  {
    if days == {} then 0
    else
      var d :| d in days;
      |grouped[d]| + GroupSizes(grouped, days - {d})
  }

  /** Counting two disjoint sets of days counts their union. */
  lemma {:induction false} CountOnDisjointDays(prayers: seq<Prayer>, dayOf: string -> string, a: set<string>, b: set<string>)
    requires a !! b
    ensures CountOnDays(prayers, dayOf, a + b) == CountOnDays(prayers, dayOf, a) + CountOnDays(prayers, dayOf, b)
  {
    if prayers != [] {
      CountOnDisjointDays(prayers[1..], dayOf, a, b);
    }
  }

  /** One day's prayers number as many as the prayers counted for that day. */
  lemma {:induction false} FilterCount(prayers: seq<Prayer>, dayOf: string -> string, day: string)
    ensures |FilterPrayersByDate(prayers, dayOf, day)| == CountOnDays(prayers, dayOf, {day})
  {
    if prayers != [] {
      FilterCount(prayers[1..], dayOf, day);
    }
  }

  /** Every prayer is counted when every day is. */
  lemma {:induction false} CountAllDays(prayers: seq<Prayer>, dayOf: string -> string, days: set<string>)
    requires forall k :: 0 <= k < |prayers| ==> dayOf(prayers[k].createdAt) in days
    ensures CountOnDays(prayers, dayOf, days) == |prayers|
  {
    if prayers != [] {
      assert dayOf(prayers[0].createdAt) in days;
      forall k | 0 <= k < |prayers| - 1 ensures dayOf(prayers[1..][k].createdAt) in days {
        assert prayers[1..][k] == prayers[k + 1];
      }
      CountAllDays(prayers[1..], dayOf, days);
    }
  }

  /** The groups for `days` hold, together, the prayers written on those days. */
  lemma {:induction false} GroupSizesCount(prayers: seq<Prayer>, dayOf: string -> string, grouped: map<string, seq<Prayer>>, days: set<string>)
    requires days <= grouped.Keys
    requires forall day :: day in grouped ==> grouped[day] == FilterPrayersByDate(prayers, dayOf, day)
    ensures GroupSizes(grouped, days) == CountOnDays(prayers, dayOf, days)
    decreases days
  {
    if days == {} {
      CountEmptyDays(prayers, dayOf);
    } else {
      var d :| d in days && GroupSizes(grouped, days) == |grouped[d]| + GroupSizes(grouped, days - {d});
      GroupSizesCount(prayers, dayOf, grouped, days - {d});
      FilterCount(prayers, dayOf, d);
      CountOnDisjointDays(prayers, dayOf, {d}, days - {d});
      assert {d} + (days - {d}) == days;
    }
  }

  lemma {:induction false} CountEmptyDays(prayers: seq<Prayer>, dayOf: string -> string)
    ensures CountOnDays(prayers, dayOf, {}) == 0
  {
    if prayers != [] {
      CountEmptyDays(prayers[1..], dayOf);
    }
  }

  /** The groups together hold exactly as many prayers as were given. */
  lemma GroupSizesSum(prayers: seq<Prayer>, dayOf: string -> string, grouped: map<string, seq<Prayer>>)
    requires grouped.Keys == Days(prayers, dayOf)
    requires forall day :: day in grouped ==> grouped[day] == FilterPrayersByDate(prayers, dayOf, day)
    ensures GroupSizes(grouped, grouped.Keys) == |prayers|
  {
    GroupSizesCount(prayers, dayOf, grouped, grouped.Keys);
    CountAllDays(prayers, dayOf, grouped.Keys);
  }

  /**
   * The calendar's view of one day agrees with the grouping: a day with
   * prayers shows its group, any other day shows none; and the dates
   * marked on the calendar are the group keys.
   */
  method GroupsFiltersAndDatesAgree(prayers: seq<Prayer>, dayOf: string -> string, day: string)
    returns (group: Option<seq<Prayer>>, filtered: seq<Prayer>, marked: bool)
    ensures group.Some? ==> group.value == filtered && marked
    ensures group.None? ==> filtered == [] && !marked
    ensures |filtered| <= |prayers|
  {
    var grouped := GroupPrayersByDate(prayers, dayOf);
    var dates := GetPrayerDates(prayers, dayOf);
    group := if day in grouped then Some(grouped[day]) else None;
    filtered := FilterPrayersByDate(prayers, dayOf, day);
    marked := day in dates;
    if day !in grouped {
      FilterOtherDay(prayers, dayOf, day);
    }
  }
}
