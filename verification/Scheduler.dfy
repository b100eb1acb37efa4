/** The scheduler loop: no wake is lost, and a stop lets the call in flight finish and starts none
    after it. */
module Scheduler {
  // Where the loop is: not started, about to look at `_stopping`, inside `run_once`, waiting for its
  // event, or returned.
  datatype Place = Top | Running | Waiting | Exited

  datatype Outcome = Found | Idle | Errored

  // `event`: the wake event is set. `scheduled`: callbacks that will set it, not yet run. `woken`: how
  // many wakes were issued; `seen`: how many when the latest `run_once` started.
  datatype State = State(place: Place, stopping: bool, event: bool, scheduled: nat, woken: nat, seen: nat,
                         runs: nat, lastError: bool, lastOutcome: Outcome)

  datatype Step =
    | Wake              // from any thread: only schedules a callback on the loop
    | Callback          // the scheduled callback sets the event
    | Stop              // sets the flag, and wakes
    | Look              // the loop condition; if not stopping, clears the event and starts `run_once`
    | Finish(outcome: Outcome)
    | Woken             // the wait returns because the event is set
    | TimedOut          // or because the interval is over

  predicate Starts(s: State) {
    s.place.Top? && !s.stopping && !s.event && s.scheduled == 0 && s.woken == s.seen && s.runs == 0
  }

  predicate Next(s: State, s': State, st: Step) {
    match st
    case Wake => s' == s.(scheduled := s.scheduled + 1, woken := s.woken + 1)
    case Callback => s.scheduled > 0 && s' == s.(scheduled := s.scheduled - 1, event := true)
    case Stop => s' == s.(stopping := true, scheduled := s.scheduled + 1, woken := s.woken + 1)
    case Look => s.place.Top? &&
        (if s.stopping then s' == s.(place := Exited)
         else s' == s.(place := Running, event := false, seen := s.woken, runs := s.runs + 1))
    case Finish(outcome) => s.place.Running?
        && s' == s.(place := if outcome.Found? then Top else Waiting, lastError := outcome.Errored?, lastOutcome := outcome)
    case Woken => s.place.Waiting? && s.event && s' == s.(place := Top)
    case TimedOut => s.place.Waiting? && s' == s.(place := Top)
  }

  ghost predicate IsRun(ss: seq<State>, steps: seq<Step>) {
    && |ss| == |steps| + 1 && Starts(ss[0])
    && forall n {:trigger steps[n]} :: 0 <= n < |steps| ==> Next(ss[n], ss[n + 1], steps[n])
  }

  // A wake issued after the latest look is still on its way, or has arrived.
  predicate NothingLost(s: State) { s.seen <= s.woken && (s.seen < s.woken ==> s.event || s.scheduled > 0) }

  lemma {:induction false} RunLosesNothing(ss: seq<State>, steps: seq<Step>, n: nat)
    requires IsRun(ss, steps) && n < |ss|
    ensures NothingLost(ss[n])
  {
    if n > 0 {
      RunLosesNothing(ss, steps, n - 1);
      assert Next(ss[n - 1], ss[n], steps[n - 1]);
    }
  }

  // No lost wake: whenever the loop is asleep with its event unset and no callback in flight, every
  // wake issued so far came before its latest look at the queue started.
  lemma NoLostWake(ss: seq<State>, steps: seq<Step>, n: nat)
    requires IsRun(ss, steps) && n < |ss|
    requires ss[n].place.Waiting? && !ss[n].event && ss[n].scheduled == 0
    ensures ss[n].woken == ss[n].seen
  {
    RunLosesNothing(ss, steps, n);
  }

  // And a wake is answered: a wait that was woken for is over by the event alone, whatever else
  // happens, until the loop looks again.
  lemma {:induction false} WakeIsAnswered(ss: seq<State>, steps: seq<Step>, m: nat, n: nat)
    requires IsRun(ss, steps) && m <= n < |ss| && ss[m].seen < ss[m].woken
    requires forall k :: m <= k < n ==> !steps[k].Look?
    ensures ss[n].seen == ss[m].seen && (ss[n].event || ss[n].scheduled > 0)
    decreases n
  {
    if m < n {
      WakeIsAnswered(ss, steps, m, n - 1);
      assert Next(ss[n - 1], ss[n], steps[n - 1]);
      RunLosesNothing(ss, steps, n);
      StoppingStays(ss, steps, m, n);
    } else {
      RunLosesNothing(ss, steps, n);
    }
  }

  // ----- stop -----

  lemma {:induction false} StoppingStays(ss: seq<State>, steps: seq<Step>, m: nat, n: nat)
    requires IsRun(ss, steps) && m <= n < |ss|
    ensures ss[m].stopping ==> ss[n].stopping && ss[n].runs == ss[m].runs
    ensures ss[m].runs <= ss[n].runs && ss[m].woken <= ss[n].woken
    decreases n
  {
    if m < n {
      StoppingStays(ss, steps, m, n - 1);
      assert Next(ss[n - 1], ss[n], steps[n - 1]);
    }
  }

  // After `stop` has set its flag no `run_once` begins.
  lemma NoRunAfterStop(ss: seq<State>, steps: seq<Step>, m: nat, n: nat)
    requires IsRun(ss, steps) && m <= n < |ss| && ss[m].stopping
    ensures ss[n].runs == ss[m].runs
    ensures n < |steps| && ss[n + 1].place.Running? ==> ss[n].place.Running?
  {
    StoppingStays(ss, steps, m, n);
    if n < |steps| { assert Next(ss[n], ss[n + 1], steps[n]); }
  }

  // How many steps of its own the loop still needs once it is stopping.
  function StepsLeft(s: State): nat {
    match s.place
    case Exited => 0
    case Top => 1
    case Waiting => 2
    case Running => 3
  }

  // Every step of its own brings a stopping loop closer to its end, and nothing takes it further
  // away: it exits after the call in flight.
  lemma StoppingLoopEnds(s: State, s': State, st: Step)
    requires Next(s, s', st) && s.stopping
    ensures StepsLeft(s') <= StepsLeft(s)
    ensures st.Look? || st.Finish? || st.Woken? || st.TimedOut? ==> StepsLeft(s') < StepsLeft(s)
  {}

  predicate OwnStep(st: Step) { st.Look? || st.Finish? || st.Woken? || st.TimedOut? }

  function OwnSteps(steps: seq<Step>): nat {
    if steps == [] then 0 else OwnSteps(steps[..|steps| - 1]) + if OwnStep(steps[|steps| - 1]) then 1 else 0
  }

  // Three steps of its own after the flag is set, at the latest, the loop has returned.
  lemma {:induction false} ExitsAfterStop(ss: seq<State>, steps: seq<Step>, m: nat, n: nat)
    requires IsRun(ss, steps) && m <= n < |ss| && ss[m].stopping
    ensures StepsLeft(ss[n]) + OwnSteps(steps[m..n]) <= 3
    ensures OwnSteps(steps[m..n]) >= 3 ==> ss[n].place.Exited?
    decreases n
  {
    if m < n {
      ExitsAfterStop(ss, steps, m, n - 1);
      StoppingStays(ss, steps, m, n - 1);
      assert Next(ss[n - 1], ss[n], steps[n - 1]);
      StoppingLoopEnds(ss[n - 1], ss[n], steps[n - 1]);
      assert steps[m..n][..n - 1 - m] == steps[m..n - 1];
      assert steps[m..n][n - 1 - m] == steps[n - 1];
    }
  }

  // A stopping loop is never stuck: if it has not returned it has a step to take, and its wait needs
  // no timeout, for the wake of `stop` is still there.
  predicate StopIsHeard(s: State) { s.stopping && s.place.Waiting? ==> s.event || s.scheduled > 0 }

  lemma {:induction false} WaitEndsAfterStop(ss: seq<State>, steps: seq<Step>, n: nat)
    requires IsRun(ss, steps) && n < |ss|
    ensures StopIsHeard(ss[n]) && (ss[n].stopping ==> ss[n].event || ss[n].scheduled > 0)
  {
    if n > 0 {
      WaitEndsAfterStop(ss, steps, n - 1);
      assert Next(ss[n - 1], ss[n], steps[n - 1]);
    }
  }
}
