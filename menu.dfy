/**
 The menu controller: each pass reads a choice and runs a work interval (1),
 a break (2), the history (3), the statistics (4), or ends the program (5).
 What the user types and when the interrupt arrives are given in advance as
 one Turn per pass; the clock readings for the records are given with them.
 */
module Menu {
  import opened Sessions
  import opened Countdown
  import opened Text
  import opened Statistics
  import opened History

  /** Length of a work interval, in minutes. */
  const WorkLength: nat := 25
  /** Length of a break interval, in minutes. */
  const BreakLength: nat := 5
  /** The subject every break record carries. */
  const BreakSubject: string := "Break"

  /** A clock reading: the date and time of day a record is completed. */
  datatype Stamp = Stamp(date: Date, time: TimeOfDay)

  /** What one pass through the menu may read: the choice, the subject and
      the break answer (read only by option 1), the interrupt oracles of the
      work and the break countdown, and the clock readings for the first and
      second record the pass may add. */
  datatype Turn = Turn(choice: string, subject: string, breakAnswer: string,
                       workInterrupts: seq<bool>, breakInterrupts: seq<bool>,
                       firstStamp: Stamp, secondStamp: Stamp)

  /** What a pass shows the user. */
  datatype Reply =
    | SubjectRejected
    | WorkRan(completed: bool, breakTaken: bool)
    | BreakRan(completed: bool)
    | HistoryShown(history: History)
    | StatisticsShown(report: Report)
    | Goodbye
    | InvalidChoice

  function WorkRecord(subject: string, at: Stamp): Record {
    Record(subject, WorkLength, Work, at.date, at.time)
  }

  function BreakRecord(at: Stamp): Record {
    Record(BreakSubject, BreakLength, Break, at.date, at.time)
  }

  /** The records a work pass (option 1) appends: none for a blank subject
      or a cancelled work countdown; otherwise the work record, then a break
      record if the user asks for a break. The break is recorded whatever its
      own countdown returned, as the program does. */
  function WorkPass(t: Turn): (r: seq<Record>)
    ensures r != [] <==> Strip(t.subject) != [] && Completes(WorkLength, t.workInterrupts)
    ensures r != [] ==> r[0] == WorkRecord(t.subject, t.firstStamp)
    ensures r != [] ==> (|r| == 2 <==> AnswersYes(t.breakAnswer)) && |r| <= 2
    ensures |r| == 2 ==> r[1] == BreakRecord(t.secondStamp)
  {
    if Strip(t.subject) == [] || !Completes(WorkLength, t.workInterrupts) then []
    else
      [WorkRecord(t.subject, t.firstStamp)] +
      (if AnswersYes(t.breakAnswer) then [BreakRecord(t.secondStamp)] else [])
  }

  /** The records a break pass (option 2) appends: one break record exactly
      when its countdown completes. */
  function BreakPass(t: Turn): (r: seq<Record>)
    ensures r != [] <==> Completes(BreakLength, t.breakInterrupts)
    ensures r != [] ==> r == [BreakRecord(t.firstStamp)]
  {
    if Completes(BreakLength, t.breakInterrupts) then [BreakRecord(t.firstStamp)] else []
  }

  /** The records one pass appends to the log: only options 1 and 2 add any. */
  function Recorded(t: Turn): (r: seq<Record>)
    ensures t.choice != "1" && t.choice != "2" ==> r == []
    ensures r != [] ==>
              (t.choice == "1" && Strip(t.subject) != [] && Completes(WorkLength, t.workInterrupts)) ||
              (t.choice == "2" && Completes(BreakLength, t.breakInterrupts))
    ensures forall x :: x in r ==>
              x == WorkRecord(t.subject, t.firstStamp) || x == BreakRecord(t.firstStamp) ||
              x == BreakRecord(t.secondStamp)
  {
    if t.choice == "1" then WorkPass(t)
    else if t.choice == "2" then BreakPass(t)
    else []
  }

  /** After a completed work interval and a yes, the break is recorded even
      when its countdown is cancelled. */
  lemma CancelledBreakIsRecorded(t: Turn)
    requires t.choice == "1" && Strip(t.subject) != [] && Completes(WorkLength, t.workInterrupts)
    requires AnswersYes(t.breakAnswer) && !Completes(BreakLength, t.breakInterrupts)
    ensures Recorded(t) == [WorkRecord(t.subject, t.firstStamp), BreakRecord(t.secondStamp)]
  {
  }

  /** The records a sequence of passes appends, in order. */
  function RecordedAll(ts: seq<Turn>): seq<Record>
  {
    if ts == [] then [] else RecordedAll(ts[..|ts| - 1]) + Recorded(ts[|ts| - 1])
  }

  /** One more pass appends its records after those of the earlier passes. */
  lemma RecordedAllStep(log: seq<Record>, ts: seq<Turn>, i: nat)
    requires i < |ts|
    ensures log + RecordedAll(ts[..i + 1]) == (log + RecordedAll(ts[..i])) + Recorded(ts[i])
  {
    assert ts[..i + 1][..i] == ts[..i];
  }

  /** The passes add only records with positive durations. */
  lemma {:induction false} RecordedAllPositive(ts: seq<Turn>)
    ensures AllPositive(RecordedAll(ts))
  {
    if ts != [] {
      RecordedAllPositive(ts[..|ts| - 1]);
      PositiveConcat(RecordedAll(ts[..|ts| - 1]), Recorded(ts[|ts| - 1]));
    }
  }

  /** The offer after a completed work interval: on a yes, run a break
      countdown and record the break. */
  method OfferBreak(log: SessionLog, t: Turn) returns (takeBreak: bool)
    modifies log
    ensures takeBreak <==> AnswersYes(t.breakAnswer)
    ensures log.sessions == old(log.sessions) + (if takeBreak then [BreakRecord(t.secondStamp)] else [])
  {
    takeBreak := AnswersYes(t.breakAnswer);
    if takeBreak {
      // the break's own result is not consulted before recording it
      var completed, shown := CountdownTimer(BreakLength, t.breakInterrupts);
      log.AddSession(BreakSubject, BreakLength, Break, t.secondStamp.date, t.secondStamp.time);
    }
  }

  /** Option 1: read a subject, run a work countdown, record it if it
      completed, and offer a break. */
  method StartWork(log: SessionLog, t: Turn) returns (reply: Reply)
    modifies log
    ensures log.sessions == old(log.sessions) + WorkPass(t)
    ensures Strip(t.subject) == [] ==> reply == SubjectRejected
    ensures Strip(t.subject) != [] ==>
              reply.WorkRan? && (reply.completed <==> Completes(WorkLength, t.workInterrupts)) &&
              (reply.breakTaken <==> reply.completed && AnswersYes(t.breakAnswer))
  {
    if Strip(t.subject) == [] {
      return SubjectRejected;
    }
    var completed, shown := CountdownTimer(WorkLength, t.workInterrupts);
    if completed {
      log.AddSession(t.subject, WorkLength, Work, t.firstStamp.date, t.firstStamp.time);
      var takeBreak := OfferBreak(log, t);
      reply := WorkRan(true, takeBreak);
    } else {
      reply := WorkRan(false, false);
    }
  }

  /** Option 2: run a break countdown and record it if it completed. */
  method StartBreak(log: SessionLog, t: Turn) returns (reply: Reply)
    modifies log
    ensures log.sessions == old(log.sessions) + BreakPass(t)
    ensures reply == BreakRan(Completes(BreakLength, t.breakInterrupts))
  {
    var completed, shown := CountdownTimer(BreakLength, t.breakInterrupts);
    if completed {
      log.AddSession(BreakSubject, BreakLength, Break, t.firstStamp.date, t.firstStamp.time);
    }
    reply := BreakRan(completed);
  }

  /** One pass of the menu loop. */
  method Dispatch(log: SessionLog, t: Turn) returns (reply: Reply)
    modifies log
    ensures log.sessions == old(log.sessions) + Recorded(t)
    ensures reply == Goodbye <==> t.choice == "5"
    ensures reply == InvalidChoice <==> t.choice !in {"1", "2", "3", "4", "5"}
    ensures t.choice == "1" ==>
              if Strip(t.subject) == [] then reply == SubjectRejected
              else reply.WorkRan? && (reply.completed <==> Completes(WorkLength, t.workInterrupts)) &&
                   (reply.breakTaken <==> reply.completed && AnswersYes(t.breakAnswer))
    ensures t.choice == "2" ==> reply == BreakRan(Completes(BreakLength, t.breakInterrupts))
    ensures t.choice == "3" ==> reply.HistoryShown? && IsHistoryOf(reply.history, log.sessions)
    ensures t.choice == "4" ==> reply.StatisticsShown? && IsReportOf(reply.report, log.sessions)
  {
    if t.choice == "1" {
      reply := StartWork(log, t);
    } else if t.choice == "2" {
      reply := StartBreak(log, t);
    } else if t.choice == "3" {
      var h := ViewSessions(log.sessions);
      reply := HistoryShown(h);
    } else if t.choice == "4" {
      var r := ShowStatistics(log.sessions);
      reply := StatisticsShown(r);
    } else if t.choice == "5" {
      reply := Goodbye;
    } else {
      reply := InvalidChoice;
    }
  }

  /** None of the first `n` passes chooses 5. */
  predicate NoExitBefore(turns: seq<Turn>, n: int)
  {
    forall k :: 0 <= k < n && k < |turns| ==> turns[k].choice != "5"
  }

  lemma NoExitStep(turns: seq<Turn>, n: nat)
    requires n < |turns| && NoExitBefore(turns, n) && turns[n].choice != "5"
    ensures NoExitBefore(turns, n + 1)
  {
  }

  /** The menu loop: passes run in order until one chooses 5 or the input
      runs out. */
  method RunMenu(log: SessionLog, turns: seq<Turn>) returns (consumed: nat, exited: bool)
    modifies log
    ensures consumed <= |turns|
    ensures log.sessions == old(log.sessions) + RecordedAll(turns[..consumed])
    ensures exited ==> consumed > 0 && turns[consumed - 1].choice == "5"
    ensures !exited ==> consumed == |turns|
    ensures NoExitBefore(turns, if exited then consumed - 1 else consumed)
    ensures AllPositive(old(log.sessions)) ==> AllPositive(log.sessions)
  {
    consumed, exited := 0, false;
    while consumed < |turns| && !exited
      invariant consumed <= |turns|
      invariant log.sessions == old(log.sessions) + RecordedAll(turns[..consumed])
      invariant exited ==> consumed > 0 && turns[consumed - 1].choice == "5"
      invariant NoExitBefore(turns, if exited then consumed - 1 else consumed)
    {
      var reply := Dispatch(log, turns[consumed]);
      RecordedAllStep(old(log.sessions), turns, consumed);
      exited := reply == Goodbye;
      if !exited {
        NoExitStep(turns, consumed);
      }
      consumed := consumed + 1;
    }
    RecordedAllPositive(turns[..consumed]);
    PositiveConcat(old(log.sessions), RecordedAll(turns[..consumed]));
  }
}
