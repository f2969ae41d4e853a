/**
 Concrete runs of the model: one work pass with and without an interrupt,
 a blank subject, and the statistics of a three-record log.
 */
module Scenarios {
  import opened Sessions
  import opened Countdown
  import opened Text
  import opened Statistics
  import opened StableSort
  import opened Menu

  /** A work pass on "Math" that runs to zero, followed by a declined break,
      adds exactly one 25-minute work record for "Math". */
  lemma MathWorkDeclinedBreak(at: Stamp, later: Stamp)
    ensures Recorded(Turn("1", "Math", "n", [], [], at, later)) ==
            [Record("Math", 25, Work, at.date, at.time)]
  {
    var t := Turn("1", "Math", "n", [], [], at, later);
    assert !IsSpace('M');
    assert Strip(t.subject) != [];
    assert Completes(WorkLength, t.workInterrupts);
  }

  /** A work pass interrupted during its first tick adds nothing. */
  lemma InterruptedWorkAddsNothing(subject: string, at: Stamp, later: Stamp)
    ensures Recorded(Turn("1", subject, "y", [true], [], at, later)) == []
  {
    var t := Turn("1", subject, "y", [true], [], at, later);
    assert Interrupted(t.workInterrupts, 0);
  }

  /** A subject of blanks is rejected and adds nothing. */
  lemma BlankSubjectAddsNothing(at: Stamp, later: Stamp)
    ensures Recorded(Turn("1", " \t", "y", [], [], at, later)) == []
  {
    var t := Turn("1", " \t", "y", [], [], at, later);
    assert forall i :: 0 <= i < |t.subject| ==> IsSpace(t.subject[i]);
  }

  /** 10 minutes of "Physics", then twice 10 minutes of "Math". */
  function ThreeRecords(d: Date): seq<Record> {
    [Record("Physics", 10, Work, d, 0), Record("Math", 10, Work, d, 1), Record("Math", 10, Work, d, 2)]
  }

  /** Physics appears first; the totals are Physics 10 and Math 20. */
  lemma ThreeRecordsTotals(d: Date)
    ensures SubjectOrder(ThreeRecords(d)) == ["Physics", "Math"]
    ensures SubjectTotals(ThreeRecords(d)) == map["Physics" := 10, "Math" := 20]
  {
    var s := ThreeRecords(d);
    var s1, s2 := s[..1], s[..2];
    assert s2[..1] == s1 && s[..2] == s2 && s1[..0] == [];
    assert "Physics"[0] != "Math"[0];
    assert SubjectOrder(s1) == ["Physics"];
    assert SubjectOrder(s2) == ["Physics", "Math"];
    assert SubjectMinutes(s1, "Physics") == 10 && SubjectMinutes(s1, "Math") == 0;
    assert SubjectMinutes(s2, "Physics") == 10 && SubjectMinutes(s2, "Math") == 10;
    assert SubjectMinutes(s, "Physics") == 10 && SubjectMinutes(s, "Math") == 20;
  }

  /** The listing puts Math (20) before Physics (10), although Physics
      appeared first. */
  lemma ThreeRecordsListing(d: Date)
    ensures SortDesc(Entries(ThreeRecords(d)), MinutesOf) ==
            [SubjectTime("Math", 20), SubjectTime("Physics", 10)]
  {
    ThreeRecordsTotals(d);
    var e := Entries(ThreeRecords(d));
    assert e == [SubjectTime("Physics", 10), SubjectTime("Math", 20)];
    var math, physics := SubjectTime("Math", 20), SubjectTime("Physics", 10);
    assert e[1..] == [math] && [math][1..] == [];
    assert SortDesc([math], MinutesOf) == Insert(math, [], MinutesOf) == [math];
    assert Insert(physics, [math], MinutesOf) == [math] + Insert(physics, [], MinutesOf);
  }
}
