/**
 The history reporter: the log grouped by completion date, most recent date
 first, each date with its records in log order and its total work minutes.
 */
module History {
  import opened Sessions
  import opened StableSort

  /** One date's group. */
  datatype Day = Day(date: Date, sessions: seq<Record>, workMinutes: nat)

  /** What the report shows; NoSessions for an empty log. */
  datatype History = NoSessions | History(days: seq<Day>)

  /** The sort key of the dates. */
  function DateKey(d: Date): nat {
    d
  }

  /** The records of `s` completed on `d`, in log order. */
  function OnDate(s: seq<Record>, d: Date): seq<Record>
  {
    if s == [] then []
    else OnDate(s[..|s| - 1], d) + (if s[|s| - 1].date == d then [s[|s| - 1]] else [])
  }

  /** The records of `s` completed on one of the dates `ds`, in log order. */
  function OnDates(s: seq<Record>, ds: set<Date>): seq<Record>
  {
    if s == [] then []
    else OnDates(s[..|s| - 1], ds) + (if s[|s| - 1].date in ds then [s[|s| - 1]] else [])
  }

  /** The dates on which records of `s` were completed. */
  function DatesIn(s: seq<Record>): set<Date> {
    set i | 0 <= i < |s| :: s[i].date
  }

  /** The dates of the groups. */
  function DatesOf(days: seq<Day>): set<Date> {
    set j | 0 <= j < |days| :: days[j].date
  }

  /** The groups' records one after the other. */
  function Flatten(days: seq<Day>): seq<Record> {
    if days == [] then [] else days[0].sessions + Flatten(days[1..])
  }

  /** `h` is the history of log `s`: nothing for an empty log; otherwise one
      group per date of the log, latest date first, each holding that date's
      records in log order and the sum of their work minutes, so that every
      record lands in exactly one group. */
  ghost predicate IsHistoryOf(h: History, s: seq<Record>) {
    && (s == [] <==> h.NoSessions?)
    && (h.History? ==>
          && (forall i, j :: 0 <= i < j < |h.days| ==> h.days[i].date > h.days[j].date)
          && DatesOf(h.days) == DatesIn(s)
          && (forall j :: 0 <= j < |h.days| ==> h.days[j].sessions == OnDate(s, h.days[j].date))
          && (forall j :: 0 <= j < |h.days| ==> h.days[j].workMinutes == SumWork(h.days[j].sessions))
          && multiset(Flatten(h.days)) == multiset(s))
  }

  /** Records land in the group of their own date. */
  lemma {:induction false} OnDateMembers(s: seq<Record>, d: Date)
    ensures forall r :: r in OnDate(s, d) <==> r in s && r.date == d
  {
    if s != [] {
      var p := s[..|s| - 1];
      OnDateMembers(p, d);
      assert s == p + [s[|s| - 1]];
    }
  }

  /** A date with no record has an empty group. */
  lemma {:induction false} OnDateAbsent(s: seq<Record>, d: Date)
    requires d !in DatesIn(s)
    ensures OnDate(s, d) == []
  {
    if s != [] {
      var p := s[..|s| - 1];
      assert forall i :: 0 <= i < |p| ==> p[i] == s[i];
      assert s[|s| - 1].date in DatesIn(s);
      OnDateAbsent(p, d);
    }
  }

  /** Selecting one more date adds exactly that date's records. */
  lemma {:induction false} OnDatesAdd(s: seq<Record>, d: Date, ds: set<Date>)
    requires d !in ds
    ensures multiset(OnDates(s, ds + {d})) == multiset(OnDate(s, d)) + multiset(OnDates(s, ds))
  {
    if s != [] {
      OnDatesAdd(s[..|s| - 1], d, ds);
    }
  }

  /** Selecting every date of the log selects the whole log. */
  lemma {:induction false} OnDatesAll(s: seq<Record>, ds: set<Date>)
    requires DatesIn(s) <= ds
    ensures OnDates(s, ds) == s
  {
    if s != [] {
      var p := s[..|s| - 1];
      assert DatesIn(p) <= DatesIn(s) by {
        forall d | d in DatesIn(p) ensures d in DatesIn(s) {
          var i :| 0 <= i < |p| && p[i].date == d;
          assert s[i] == p[i];
        }
      }
      OnDatesAll(p, ds);
      assert s[|s| - 1].date in DatesIn(s);
      assert s == p + [s[|s| - 1]];
    }
  }

  /** Groups over distinct dates, each holding its date's records, hold
      between them exactly the records on those dates. */
  lemma {:induction false} FlattenPartition(s: seq<Record>, days: seq<Day>)
    requires forall i, j :: 0 <= i < j < |days| ==> days[i].date != days[j].date
    requires forall j :: 0 <= j < |days| ==> days[j].sessions == OnDate(s, days[j].date)
    ensures multiset(Flatten(days)) == multiset(OnDates(s, DatesOf(days)))
  {
    if days == [] {
      assert DatesOf(days) == {};
      OnDatesNone(s);
    } else {
      var rest := days[1..];
      FlattenPartition(s, rest);
      assert DatesOf(days) == DatesOf(rest) + {days[0].date} by {
        forall d | d in DatesOf(days) ensures d in DatesOf(rest) + {days[0].date} {
          var j :| 0 <= j < |days| && days[j].date == d;
          if j > 0 {
            assert rest[j - 1] == days[j];
          }
        }
        forall d | d in DatesOf(rest) ensures d in DatesOf(days) {
          var j :| 0 <= j < |rest| && rest[j].date == d;
          assert days[j + 1] == rest[j];
        }
      }
      assert forall j :: 0 <= j < |rest| ==> rest[j] == days[j + 1];
      assert forall j :: 0 <= j < |rest| ==> rest[j].date != days[0].date;
      OnDatesAdd(s, days[0].date, DatesOf(rest));
    }
  }

  lemma {:induction false} OnDatesNone(s: seq<Record>)
    ensures OnDates(s, {}) == []
  {
    if s != [] {
      OnDatesNone(s[..|s| - 1]);
    }
  }

  /** Every record lands in exactly one group: the groups together are a
      permutation of the log. */
  lemma GroupsPartitionLog(s: seq<Record>, days: seq<Day>)
    requires forall i, j :: 0 <= i < j < |days| ==> days[i].date != days[j].date
    requires forall j :: 0 <= j < |days| ==> days[j].sessions == OnDate(s, days[j].date)
    requires DatesIn(s) <= DatesOf(days)
    ensures multiset(Flatten(days)) == multiset(s)
  {
    FlattenPartition(s, days);
    OnDatesAll(s, DatesOf(days));
  }

  lemma DatesInAppend(s: seq<Record>, r: Record)
    ensures DatesIn(s + [r]) == DatesIn(s) + {r.date}
  {
    var t := s + [r];
    forall d | d in DatesIn(t) ensures d in DatesIn(s) + {r.date} {
      var k :| 0 <= k < |t| && t[k].date == d;
      if k < |s| {
        assert s[k] == t[k];
      }
    }
    forall d | d in DatesIn(s) ensures d in DatesIn(t) {
      var k :| 0 <= k < |s| && s[k].date == d;
      assert t[k] == s[k];
    }
    assert t[|s|] == r;
  }

  /** Sorting distinct dates latest first lists them in strictly descending
      order, each once. */
  lemma OrderedDates(keys: seq<Date>)
    requires Distinct(keys)
    ensures forall i, j :: 0 <= i < j < |SortDesc(keys, DateKey)| ==>
              SortDesc(keys, DateKey)[i] > SortDesc(keys, DateKey)[j]
    ensures forall d :: d in SortDesc(keys, DateKey) <==> d in keys
  {
    var ordered := SortDesc(keys, DateKey);
    SortDescSorted(keys, DateKey);
    SortDescPermutes(keys, DateKey);
    DistinctPermutation(keys, ordered);
    forall d ensures d in ordered <==> d in keys {
      assert d in ordered <==> d in multiset(ordered);
      assert d in keys <==> d in multiset(keys);
    }
  }

  /** Groups made one per listed date cover the dates of the log. */
  lemma DaysCoverLog(s: seq<Record>, ds: set<Date>, ordered: seq<Date>, days: seq<Day>)
    requires ds == DatesIn(s)
    requires forall d :: d in ordered <==> d in ds
    requires |days| == |ordered|
    requires forall k :: 0 <= k < |days| ==> days[k].date == ordered[k]
    ensures DatesOf(days) == DatesIn(s)
  {
    forall d | d in DatesOf(days) ensures d in DatesIn(s) {
      var k :| 0 <= k < |days| && days[k].date == d;
      assert ordered[k] in ordered;
    }
    forall d | d in DatesIn(s) ensures d in DatesOf(days) {
      assert d in ordered;
      var k :| 0 <= k < |ordered| && ordered[k] == d;
      assert days[k].date == d;
    }
  }

  /** The first pass: each date of the log, once, in order of first
      appearance, and the map from each to its records in log order. */
  method GroupByDate(sessions: seq<Record>) returns (byDate: map<Date, seq<Record>>, keys: seq<Date>)
    ensures Distinct(keys)
    ensures forall d :: d in byDate <==> d in keys
    ensures byDate.Keys == DatesIn(sessions)
    ensures forall d :: d in byDate ==> byDate[d] == OnDate(sessions, d)
  {
    byDate, keys := map[], [];
    for i := 0 to |sessions|
      invariant Distinct(keys)
      invariant forall d :: d in byDate <==> d in keys
      invariant byDate.Keys == DatesIn(sessions[..i])
      invariant forall d :: d in byDate ==> byDate[d] == OnDate(sessions[..i], d)
    {
      var session := sessions[i];
      var date := session.date;
      assert sessions[..i + 1] == sessions[..i] + [session];
      assert sessions[..i + 1][..i] == sessions[..i];
      DatesInAppend(sessions[..i], session);
      assert forall d :: (OnDate(sessions[..i + 1], d) ==
                          OnDate(sessions[..i], d) + (if date == d then [session] else []));
      if date !in byDate {
        OnDateAbsent(sessions[..i], date);
        byDate := byDate[date := []];
        keys := keys + [date];
      }
      byDate := byDate[date := byDate[date] + [session]];
    }
    assert sessions[..|sessions|] == sessions;
  }

  /** The per-date pass: the work minutes of one group. */
  method TotalWorkTime(bucket: seq<Record>) returns (total: nat)
    ensures total == SumWork(bucket)
  {
    total := 0;
    for k := 0 to |bucket|
      invariant total == SumWork(bucket[..k])
    {
      assert bucket[..k + 1][..k] == bucket[..k];
      if bucket[k].kind == Work {
        total := total + bucket[k].duration;
      }
    }
    assert bucket[..|bucket|] == bucket;
  }

  /** The second pass: one group per listed date, in the listed order, with
      its records and their work minutes. */
  method DailyGroups(sessions: seq<Record>, byDate: map<Date, seq<Record>>, ordered: seq<Date>)
    returns (days: seq<Day>)
    requires forall d :: d in ordered ==> d in byDate && byDate[d] == OnDate(sessions, d)
    ensures |days| == |ordered|
    ensures forall k :: 0 <= k < |days| ==> days[k].date == ordered[k]
    ensures forall k :: 0 <= k < |days| ==> days[k].sessions == OnDate(sessions, ordered[k])
    ensures forall k :: 0 <= k < |days| ==> days[k].workMinutes == SumWork(days[k].sessions)
  {
    days := [];
    for j := 0 to |ordered|
      invariant |days| == j
      invariant forall k :: 0 <= k < j ==> days[k].date == ordered[k]
      invariant forall k :: 0 <= k < j ==> days[k].sessions == OnDate(sessions, ordered[k])
      invariant forall k :: 0 <= k < j ==> days[k].workMinutes == SumWork(days[k].sessions)
    {
      var date := ordered[j];
      var totalWork := TotalWorkTime(byDate[date]);
      days := days + [Day(date, byDate[date], totalWork)];
    }
  }

  /** Groups the log by date as the reporter does and totals each date's work. */
  method ViewSessions(sessions: seq<Record>) returns (h: History)
    ensures IsHistoryOf(h, sessions)
  {
    if |sessions| == 0 {
      return NoSessions;
    }
    var byDate, keys := GroupByDate(sessions);
    var ordered := SortDesc(keys, DateKey);
    OrderedDates(keys);
    var days := DailyGroups(sessions, byDate, ordered);
    h := History(days);
    DaysMakeHistory(sessions, ordered, days);
  }

  /** One group per date of the log, in strictly descending date order, each
      with its date's records and their work minutes, make the log's history. */
  lemma DaysMakeHistory(s: seq<Record>, ordered: seq<Date>, days: seq<Day>)
    requires s != []
    requires forall i, j :: 0 <= i < j < |ordered| ==> ordered[i] > ordered[j]
    requires forall d :: d in ordered <==> d in DatesIn(s)
    requires |days| == |ordered|
    requires forall k :: 0 <= k < |days| ==> days[k].date == ordered[k]
    requires forall k :: 0 <= k < |days| ==> days[k].sessions == OnDate(s, ordered[k])
    requires forall k :: 0 <= k < |days| ==> days[k].workMinutes == SumWork(days[k].sessions)
    ensures IsHistoryOf(History(days), s)
  {
    DaysCoverLog(s, DatesIn(s), ordered, days);
    GroupsPartitionLog(s, days);
  }
}
