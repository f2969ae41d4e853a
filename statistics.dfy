/**
 The statistics reporter: one pass over the log that counts work sessions,
 totals work and break minutes, and totals work minutes per subject; the
 per-subject totals are then listed largest first.
 */
module Statistics {
  import opened Sessions
  import opened Base60
  import opened StableSort

  /** One line of the per-subject listing. */
  datatype SubjectTime = SubjectTime(subject: string, minutes: nat)

  /** The sort key of the listing. */
  function MinutesOf(e: SubjectTime): nat {
    e.minutes
  }

  /** What the report shows; NoData for an empty log. */
  datatype Report =
    | NoData
    | Report(workSessions: nat, workMinutes: nat, workClock: Split, breakMinutes: nat,
             subjects: map<string, nat>, bySubject: seq<SubjectTime>)

  /** `r` is the report on log `s`: nothing for an empty log; otherwise the
      number of work sessions, the work minutes (also as hours and minutes),
      the break minutes, each work subject's total, and those totals listed
      largest first with ties in order of first appearance. */
  ghost predicate IsReportOf(r: Report, s: seq<Record>) {
    && (s == [] <==> r.NoData?)
    && (r.Report? ==>
          && r.workSessions == CountWork(s)
          && r.workSessions == |WorkPositions(s)|
          && r.workMinutes == SumWork(s)
          && r.breakMinutes == SumBreak(s)
          && r.workMinutes + r.breakMinutes == SumDurations(s)
          && Value(r.workClock) == r.workMinutes && r.workClock.minor < 60
          && r.subjects == SubjectTotals(s)
          && r.bySubject == SortDesc(Entries(s), MinutesOf)
          && SortedDesc(r.bySubject, MinutesOf)
          && multiset(r.bySubject) == multiset(Entries(s))
          && TotalMinutes(r.bySubject) == r.workMinutes)
  }

  /** Work minutes recorded under subject `k`. */
  function SubjectMinutes(s: seq<Record>, k: string): nat
  {
    if s == [] then 0
    else
      var r := s[|s| - 1];
      SubjectMinutes(s[..|s| - 1], k) + (if r.kind == Work && r.subject == k then r.duration else 0)
  }

  /** The subjects of the work records, each once, in order of first appearance
      (the key order of the program's dictionary). */
  function SubjectOrder(s: seq<Record>): seq<string>
  {
    if s == [] then []
    else
      var o := SubjectOrder(s[..|s| - 1]);
      var r := s[|s| - 1];
      if r.kind == Work && r.subject !in o then o + [r.subject] else o
  }

  /** Subject to total work minutes. */
  function SubjectTotals(s: seq<Record>): map<string, nat>
  {
    map k | k in SubjectOrder(s) :: SubjectMinutes(s, k)
  }

  /** The dictionary's items in key order. */
  function Items(keys: seq<string>, m: map<string, nat>): (r: seq<SubjectTime>)
    requires forall k :: k in keys ==> k in m
    ensures |r| == |keys|
    ensures forall i :: 0 <= i < |keys| ==> r[i] == SubjectTime(keys[i], m[keys[i]])
  {
    if keys == [] then []
    else Items(keys[..|keys| - 1], m) + [SubjectTime(keys[|keys| - 1], m[keys[|keys| - 1]])]
  }

  /** The unsorted per-subject listing of a log. */
  function Entries(s: seq<Record>): seq<SubjectTime>
  {
    Items(SubjectOrder(s), SubjectTotals(s))
  }

  /** Sum of the minutes of a listing. */
  function TotalMinutes(e: seq<SubjectTime>): nat
  {
    if e == [] then 0 else TotalMinutes(e[..|e| - 1]) + e[|e| - 1].minutes
  }

  /** Sum of the subject totals of the given subjects. */
  function SumOver(keys: seq<string>, s: seq<Record>): nat
  {
    if keys == [] then 0 else SumOver(keys[..|keys| - 1], s) + SubjectMinutes(s, keys[|keys| - 1])
  }

  /** The subject order names every work subject exactly once. */
  lemma {:induction false} SubjectOrderFacts(s: seq<Record>)
    ensures Distinct(SubjectOrder(s))
    ensures forall k :: k in SubjectOrder(s) <==>
              exists i :: 0 <= i < |s| && s[i].kind == Work && s[i].subject == k
  {
    if s != [] {
      var p := s[..|s| - 1];
      SubjectOrderFacts(p);
      forall k ensures k in SubjectOrder(s) <==>
          exists i :: 0 <= i < |s| && s[i].kind == Work && s[i].subject == k
      {
        if k in SubjectOrder(p) {
          var i :| 0 <= i < |p| && p[i].kind == Work && p[i].subject == k;
          assert s[i] == p[i];
        }
        if exists i :: 0 <= i < |s| && s[i].kind == Work && s[i].subject == k {
          var i :| 0 <= i < |s| && s[i].kind == Work && s[i].subject == k;
          if i < |p| {
            assert p[i] == s[i];
          }
        }
      }
    }
  }

  /** A subject that never appears in a work record has no minutes. */
  lemma {:induction false} AbsentSubjectHasNoMinutes(s: seq<Record>, k: string)
    requires k !in SubjectOrder(s)
    ensures SubjectMinutes(s, k) == 0
  {
    if s != [] {
      var p := s[..|s| - 1];
      assert k !in SubjectOrder(p) by {
        assert forall j :: j in SubjectOrder(p) ==> j in SubjectOrder(s);
      }
      AbsentSubjectHasNoMinutes(p, k);
    }
  }

  /** Appending one record to the log raises the sum over distinct subjects
      by its duration when it is work on one of them. */
  lemma {:induction false} SumOverAppendRecord(keys: seq<string>, s: seq<Record>, r: Record)
    requires Distinct(keys)
    ensures SumOver(keys, s + [r]) ==
            SumOver(keys, s) + (if r.kind == Work && r.subject in keys then r.duration else 0)
  {
    assert (s + [r])[..|s|] == s;
    if keys != [] {
      var init := keys[..|keys| - 1];
      assert keys == init + [keys[|keys| - 1]];
      assert Distinct(init);
      SumOverAppendRecord(init, s, r);
    }
  }

  /** The per-subject totals add up to the total work time. */
  lemma {:induction false} SubjectTotalsSumToWork(s: seq<Record>)
    ensures SumOver(SubjectOrder(s), s) == SumWork(s)
  {
    if s != [] {
      var p := s[..|s| - 1];
      var r := s[|s| - 1];
      assert s == p + [r];
      SubjectTotalsSumToWork(p);
      SubjectOrderFacts(p);
      SumOverAppendRecord(SubjectOrder(p), p, r);
      if r.kind == Work && r.subject !in SubjectOrder(p) {
        AbsentSubjectHasNoMinutes(p, r.subject);
        var o := SubjectOrder(p) + [r.subject];
        assert o[..|o| - 1] == SubjectOrder(p);
      }
    }
  }

  /** The minutes of a listing are the subject totals it lists. */
  lemma {:induction false} ItemsTotal(keys: seq<string>, s: seq<Record>, m: map<string, nat>)
    requires forall k :: k in keys ==> k in m && m[k] == SubjectMinutes(s, k)
    ensures TotalMinutes(Items(keys, m)) == SumOver(keys, s)
  {
    if keys != [] {
      var init := keys[..|keys| - 1];
      assert forall k :: k in init ==> k in keys;
      ItemsTotal(init, s, m);
      var e := Items(keys, m);
      assert e[..|e| - 1] == Items(init, m);
    }
  }

  lemma {:induction false} TotalMinutesPrepend(x: SubjectTime, e: seq<SubjectTime>)
    ensures TotalMinutes([x] + e) == x.minutes + TotalMinutes(e)
  {
    if e != [] {
      var init := e[..|e| - 1];
      assert ([x] + e)[..|e|] == [x] + init;
      TotalMinutesPrepend(x, init);
    }
  }

  /** Inserting into the listing adds exactly the inserted minutes. */
  lemma {:induction false} InsertTotal(x: SubjectTime, e: seq<SubjectTime>)
    ensures TotalMinutes(Insert(x, e, MinutesOf)) == x.minutes + TotalMinutes(e)
  {
    if e == [] || e[0].minutes <= x.minutes {
      TotalMinutesPrepend(x, e);
    } else {
      InsertTotal(x, e[1..]);
      TotalMinutesPrepend(e[0], Insert(x, e[1..], MinutesOf));
      TotalMinutesPrepend(e[0], e[1..]);
      assert e == [e[0]] + e[1..];
    }
  }

  /** Sorting the listing keeps its total. */
  lemma {:induction false} SortKeepsTotal(e: seq<SubjectTime>)
    ensures TotalMinutes(SortDesc(e, MinutesOf)) == TotalMinutes(e)
  {
    if e != [] {
      SortKeepsTotal(e[1..]);
      InsertTotal(e[0], SortDesc(e[1..], MinutesOf));
      TotalMinutesPrepend(e[0], e[1..]);
      assert e == [e[0]] + e[1..];
    }
  }

  /** The sorted per-subject listing shows exactly the total work time. */
  lemma ListingTotalIsWorkTime(s: seq<Record>)
    ensures TotalMinutes(SortDesc(Entries(s), MinutesOf)) == SumWork(s)
  {
    SortKeepsTotal(Entries(s));
    ItemsTotal(SubjectOrder(s), s, SubjectTotals(s));
    SubjectTotalsSumToWork(s);
  }

  /** One more record adds its minutes to its own subject only. */
  lemma SubjectMinutesStep(s: seq<Record>, i: nat)
    requires i < |s|
    ensures forall k :: SubjectMinutes(s[..i + 1], k) ==
              SubjectMinutes(s[..i], k) + (if s[i].kind == Work && s[i].subject == k then s[i].duration else 0)
  {
    assert s[..i + 1][..i] == s[..i];
  }

  /** Computes the statistics of the log in one pass, as the reporter does. */
  method ShowStatistics(sessions: seq<Record>) returns (r: Report)
    ensures IsReportOf(r, sessions)
  {
    if |sessions| == 0 {
      return NoData;
    }
    var workSessions, workMinutes, breakMinutes := 0, 0, 0;
    var subjects: map<string, nat> := map[];
    var order: seq<string> := [];
    for i := 0 to |sessions|
      invariant workSessions == CountWork(sessions[..i])
      invariant workMinutes == SumWork(sessions[..i])
      invariant breakMinutes == SumBreak(sessions[..i])
      invariant order == SubjectOrder(sessions[..i])
      invariant forall k :: k in subjects <==> k in order
      invariant forall k :: k in subjects ==> subjects[k] == SubjectMinutes(sessions[..i], k)
    {
      var session := sessions[i];
      assert sessions[..i + 1] == sessions[..i] + [session];
      SumsOfAppend(sessions[..i], session);
      SubjectMinutesStep(sessions, i);
      if session.kind == Work {
        workSessions := workSessions + 1;
        workMinutes := workMinutes + session.duration;
        var subject := session.subject;
        if subject !in subjects {
          AbsentSubjectHasNoMinutes(sessions[..i], subject);
          subjects := subjects[subject := 0];
          order := order + [subject];
        }
        subjects := subjects[subject := subjects[subject] + session.duration];
      } else {
        breakMinutes := breakMinutes + session.duration;
      }
    }
    assert sessions[..|sessions|] == sessions;
    assert subjects == SubjectTotals(sessions);
    var bySubject := SortDesc(Items(order, subjects), MinutesOf);
    r := Report(workSessions, workMinutes, Split60(workMinutes), breakMinutes, subjects, bySubject);
    TalliesReport(sessions, r);
  }

  /** Tallies that agree with the log, with the listing sorted from its
      subject totals, make the report on it. */
  lemma TalliesReport(s: seq<Record>, r: Report)
    requires s != [] && r.Report?
    requires r.workSessions == CountWork(s)
    requires r.workMinutes == SumWork(s)
    requires r.breakMinutes == SumBreak(s)
    requires r.workClock == Split60(r.workMinutes)
    requires r.subjects == SubjectTotals(s)
    requires r.bySubject == SortDesc(Entries(s), MinutesOf)
    ensures IsReportOf(r, s)
  {
    CountWorkIsCardinality(s);
    WorkPlusBreak(s);
    SortDescSorted(Entries(s), MinutesOf);
    SortDescPermutes(Entries(s), MinutesOf);
    ListingTotalIsWorkTime(s);
  }
}
