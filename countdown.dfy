/**
 The interval runner: a countdown of `duration * 60` one-second ticks that
 either reaches zero (completed) or is cancelled by the user. The user's
 interrupt is an oracle: `oracle[k]` says whether it arrives during tick `k`
 (ticks past the end of the oracle are not interrupted).
 */
module Countdown {
  import opened Base60

  /** The runner's states; Completed and Cancelled are terminal. */
  datatype TimerState = Running(remaining: nat) | Completed | Cancelled

  /** Whether the interrupt arrives during tick `k`. */
  function Interrupted(oracle: seq<bool>, k: nat): bool {
    k < |oracle| && oracle[k]
  }

  /** One transition: nothing left means completed, otherwise one tick
      passes unless the interrupt arrives during it. */
  function Step(st: TimerState, interrupt: bool): TimerState {
    match st
    case Running(n) =>
      if n == 0 then Completed else if interrupt then Cancelled else Running(n - 1)
    case _ => st
  }

  /** Runs the state machine from `st`, the next tick being tick `k`. */
  function Run(st: TimerState, oracle: seq<bool>, k: nat): (r: TimerState)
    ensures !r.Running?
    ensures !st.Running? ==> r == st
    decreases if st.Running? then st.remaining + 1 else 0
  {
    if st.Running? then Run(Step(st, Interrupted(oracle, k)), oracle, k + 1) else st
  }

  /** No interrupt arrives during the `minutes * 60` ticks of a countdown. */
  predicate Completes(minutes: nat, oracle: seq<bool>) {
    forall j :: 0 <= j < minutes * 60 ==> !Interrupted(oracle, j)
  }

  /** Running `n` seconds from tick `k` completes iff none of ticks k .. k+n-1
      is interrupted, and is cancelled otherwise. */
  lemma {:induction false} RunCompletesIff(n: nat, oracle: seq<bool>, k: nat)
    ensures Run(Running(n), oracle, k) == Completed <==>
            forall j :: k <= j < k + n ==> !Interrupted(oracle, j)
    ensures Run(Running(n), oracle, k) == Cancelled <==>
            exists j :: k <= j < k + n && Interrupted(oracle, j)
    decreases n
  {
    if n == 0 {
      assert Run(Running(0), oracle, k) == Run(Completed, oracle, k + 1);
    } else if Interrupted(oracle, k) {
      assert Run(Running(n), oracle, k) == Run(Cancelled, oracle, k + 1);
    } else {
      assert Run(Running(n), oracle, k) == Run(Running(n - 1), oracle, k + 1);
      RunCompletesIff(n - 1, oracle, k + 1);
    }
  }

  /** The state machine reaches Completed exactly when no interrupt
      arrives, and Cancelled otherwise. */
  lemma CompletesIffRunCompletes(minutes: nat, oracle: seq<bool>)
    ensures Completes(minutes, oracle) <==> Run(Running(minutes * 60), oracle, 0) == Completed
    ensures !Completes(minutes, oracle) <==> Run(Running(minutes * 60), oracle, 0) == Cancelled
  {
    RunCompletesIff(minutes * 60, oracle, 0);
  }

  /** Counts down from `minutes * 60` seconds, showing `mins:secs` at each
      tick; returns whether zero was reached. `shown` is what was displayed,
      one entry per tick begun. */
  method CountdownTimer(minutes: nat, oracle: seq<bool>) returns (completed: bool, shown: seq<Split>)
    ensures completed <==> Run(Running(minutes * 60), oracle, 0) == Completed
    ensures completed <==> Completes(minutes, oracle)
    ensures completed ==> |shown| == minutes * 60
    ensures !completed ==> 0 < |shown| <= minutes * 60 && Interrupted(oracle, |shown| - 1)
    ensures forall k :: 0 <= k < |shown| - 1 ==> !Interrupted(oracle, k)
    ensures completed && |shown| > 0 ==> !Interrupted(oracle, |shown| - 1)
    ensures forall k :: 0 <= k < |shown| ==>
              Value(shown[k]) == minutes * 60 - k && shown[k].minor < 60
  {
    var totalSeconds: nat := minutes * 60;
    shown := [];
    while totalSeconds > 0
      invariant totalSeconds + |shown| == minutes * 60
      invariant forall k :: 0 <= k < |shown| ==> !Interrupted(oracle, k)
      invariant forall k :: 0 <= k < |shown| ==>
                  Value(shown[k]) == minutes * 60 - k && shown[k].minor < 60
      invariant Run(Running(minutes * 60), oracle, 0) == Run(Running(totalSeconds), oracle, |shown|)
    {
      shown := shown + [Split60(totalSeconds)];
      // the one-second sleep, during which the interrupt may arrive
      if Interrupted(oracle, |shown| - 1) {
        assert Run(Running(totalSeconds), oracle, |shown| - 1) == Run(Cancelled, oracle, |shown|);
        CompletesIffRunCompletes(minutes, oracle);
        return false, shown;
      }
      totalSeconds := totalSeconds - 1;
    }
    assert Run(Running(0), oracle, |shown|) == Run(Completed, oracle, |shown| + 1);
    CompletesIffRunCompletes(minutes, oracle);
    completed := true;
  }
}
