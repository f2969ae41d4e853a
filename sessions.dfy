/**
 The session log: the one entity of the timer (a completed interval) and the
 append-only, in-memory list of them that every other component reads.
 */
module Sessions {

  datatype Kind = Work | Break

  /** Calendar day of completion, as an ordinal day number. The program keeps
      it as a "%Y-%m-%d" string, whose text order is the same as day order. */
  type Date = nat

  /** Time of day of completion, in seconds since midnight. */
  type TimeOfDay = nat

  /** One completed interval, with the field names the readers of the log use. */
  datatype Record = Record(subject: string, duration: nat, kind: Kind, date: Date, time: TimeOfDay)

  /** The minutes a record contributes to a work total. */
  function WorkPart(r: Record): nat {
    if r.kind == Work then r.duration else 0
  }

  /** The minutes a record contributes to a break total. */
  function BreakPart(r: Record): nat {
    if r.kind == Break then r.duration else 0
  }

  /** Sum of the durations of the work records of `s`. */
  function SumWork(s: seq<Record>): nat
  {
    if s == [] then 0 else SumWork(s[..|s| - 1]) + WorkPart(s[|s| - 1])
  }

  /** Sum of the durations of the break records of `s`. */
  function SumBreak(s: seq<Record>): nat
  {
    if s == [] then 0 else SumBreak(s[..|s| - 1]) + BreakPart(s[|s| - 1])
  }

  /** Sum of all durations of `s`. */
  function SumDurations(s: seq<Record>): nat
  {
    if s == [] then 0 else SumDurations(s[..|s| - 1]) + s[|s| - 1].duration
  }

  /** Number of work records of `s`, counted left to right. */
  function CountWork(s: seq<Record>): nat
  {
    if s == [] then 0 else CountWork(s[..|s| - 1]) + (if s[|s| - 1].kind == Work then 1 else 0)
  }

  /** The positions of the work records of `s`. */
  function WorkPositions(s: seq<Record>): set<nat>
  {
    set i: nat | i < |s| && s[i].kind == Work
  }

  /** Every record has a positive duration (the log's intended invariant). */
  predicate AllPositive(s: seq<Record>)
  {
    forall r :: r in s ==> r.duration > 0
  }

  lemma PositiveConcat(a: seq<Record>, b: seq<Record>)
    ensures AllPositive(a + b) <==> AllPositive(a) && AllPositive(b)
  {
  }

  /** Every minute in the log is either a work minute or a break minute. */
  lemma {:induction false} WorkPlusBreak(s: seq<Record>)
    ensures SumWork(s) + SumBreak(s) == SumDurations(s)
  {
    if s != [] {
      WorkPlusBreak(s[..|s| - 1]);
    }
  }

  /** The running count of work records is the number of positions holding one. */
  lemma {:induction false} CountWorkIsCardinality(s: seq<Record>)
    ensures CountWork(s) == |WorkPositions(s)|
  {
    if s != [] {
      var p := s[..|s| - 1];
      CountWorkIsCardinality(p);
      var last: nat := |s| - 1;
      if s[last].kind == Work {
        assert WorkPositions(s) == WorkPositions(p) + {last};
        assert last !in WorkPositions(p);
      } else {
        assert WorkPositions(s) == WorkPositions(p);
      }
    }
  }

  /** Appending one record adds its share to each total. */
  lemma SumsOfAppend(s: seq<Record>, r: Record)
    ensures SumWork(s + [r]) == SumWork(s) + WorkPart(r)
    ensures SumBreak(s + [r]) == SumBreak(s) + BreakPart(r)
    ensures CountWork(s + [r]) == CountWork(s) + (if r.kind == Work then 1 else 0)
  {
    assert (s + [r])[..|s|] == s;
  }

  /** The in-memory session log, owned by the menu and handed to the reporters. */
  class SessionLog {
    var sessions: seq<Record>

    /** Starts from the records loaded from storage (or none). */
    constructor (loaded: seq<Record>)
      ensures sessions == loaded
    {
      sessions := loaded;
    }

    /** Appends one completed interval; the timestamp is supplied by the caller. */
    method AddSession(subject: string, duration: nat, kind: Kind, date: Date, time: TimeOfDay)
      modifies this
      ensures sessions == old(sessions) + [Record(subject, duration, kind, date, time)]
      ensures |sessions| == |old(sessions)| + 1 && old(sessions) <= sessions
      ensures AllPositive(old(sessions)) && duration > 0 ==> AllPositive(sessions)
    {
      sessions := sessions + [Record(subject, duration, kind, date, time)];
    }
  }
}
