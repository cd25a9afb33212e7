/** The job runner of the worker and market-data services: idle, once and loop
    modes with cooperative cancellation. A `select!` polls its branches in an
    order the environment picks, so every choice is an input. */
module JobRunner {
  import opened Ledger

  datatype Mode = Idle | Once | Loop

  datatype JobPoll = StillRunning | Finished(ok: bool)

  /** What the environment does: it cancels, or it polls the runner once. A poll
      picks which branch of the select goes first, and what the job and the
      timer answer when they are polled. */
  datatype Event =
    | Cancel
    | Poll(cancelFirst: bool, job: JobPoll, elapsed: bool)

  datatype JobEnd = Succeeded | Errored | Dropped

  datatype Phase =
    | Waiting               // idle: waits for the token
    | AtJob                 // the select over a job that has not been polled yet
    | InJob                 // the same select, the job is under way
    | AtSleep(unpolled: bool)  // the select over the timer; unpolled: the timer has not been polled yet
    | Exited(ok: bool)

  /** `started` counts jobs, `startedLate` those started after cancellation,
      and `ends` says how each job that is no longer running ended. */
  datatype Runner = Runner(mode: Mode, cancelled: bool, phase: Phase, started: nat, startedLate: nat, ends: seq<JobEnd>)

  function Start(mode: Mode): Runner {
    Runner(mode, false, if mode == Idle then Waiting else AtJob, 0, 0, [])
  }

  function StartJob(r: Runner): Runner {
    if r.phase == InJob then r
    else r.(phase := InJob, started := r.started + 1, startedLate := r.startedLate + if r.cancelled then 1 else 0)
  }

  function EndJob(r: Runner, end: JobEnd, phase: Phase): Runner {
    r.(phase := phase, ends := r.ends + [end])
  }

  function PollOnce(r: Runner, job: JobPoll): Runner {
    var s := StartJob(r);
    match job
    case StillRunning => s
    case Finished(ok) => EndJob(s, if ok then Succeeded else Errored, Exited(ok))
  }

  function PollJobSelect(r: Runner, cancelFirst: bool, job: JobPoll): Runner {
    if r.cancelled && cancelFirst then
      if r.phase == InJob then EndJob(r, Dropped, Exited(true)) else r.(phase := Exited(true))
    else
      var s := StartJob(r);
      match job
      case Finished(true) => EndJob(s, Succeeded, AtSleep(true))
      case Finished(false) => EndJob(s, Errored, Exited(false))
      case StillRunning => if r.cancelled then EndJob(s, Dropped, Exited(true)) else s
  }

  /** A timer of a positive interval is never ready when it is first polled. */
  predicate TimerReady(interval: nat, unpolled: bool, elapsed: bool) {
    elapsed && (interval == 0 || !unpolled)
  }

  function PollSleepSelect(r: Runner, interval: nat, unpolled: bool, cancelFirst: bool, elapsed: bool): Runner {
    if r.cancelled && (cancelFirst || !TimerReady(interval, unpolled, elapsed)) then r.(phase := Exited(true))
    else if TimerReady(interval, unpolled, elapsed) then r.(phase := AtJob)
    else r.(phase := AtSleep(false))
  }

  function Exec(r: Runner, interval: nat, event: Event): Runner {
    if r.phase.Exited? then r
    else
      match event
      case Cancel => r.(cancelled := true)
      case Poll(cancelFirst, job, elapsed) =>
        match r.phase
        case Waiting => if r.cancelled then r.(phase := Exited(true)) else r
        case AtSleep(unpolled) => PollSleepSelect(r, interval, unpolled, cancelFirst, elapsed)
        case _ => if r.mode == Once then PollOnce(r, job) else PollJobSelect(r, cancelFirst, job)
  }

  /** The runner after a sequence of events. */
  function Run(mode: Mode, interval: nat, events: seq<Event>): Runner
    decreases |events|
  {
    if events == [] then Start(mode)
    else Exec(Run(mode, interval, events[..|events| - 1]), interval, events[|events| - 1])
  }

  lemma RunSnoc(mode: Mode, interval: nat, events: seq<Event>, n: nat)
    requires n < |events|
    ensures Run(mode, interval, events[..n + 1]) == Exec(Run(mode, interval, events[..n]), interval, events[n])
  {
    assert events[..n + 1][..n] == events[..n];
  }

  lemma {:induction false} ExitedStays(mode: Mode, interval: nat, events: seq<Event>, n: nat)
    requires n <= |events| && Run(mode, interval, events[..n]).phase.Exited?
    ensures Run(mode, interval, events) == Run(mode, interval, events[..n])
    decreases |events|
  {
    if n == |events| {
      assert events[..n] == events;
    } else {
      assert events[..|events| - 1][..n] == events[..n];
      ExitedStays(mode, interval, events[..|events| - 1], n);
    }
  }

  // ----- The loop itself -----

  /** The first select of the loop, entered at event `i`: the job against the
      token. Returns where it left the events. */
  method JobSelect(r0: Runner, interval: nat, events: seq<Event>, start: nat) returns (r: Runner, i: nat)
    requires start <= |events| && r0 == Run(Loop, interval, events[..start]) && r0.mode == Loop && r0.phase == AtJob
    ensures start <= i <= |events| && r == Run(Loop, interval, events[..i]) && r.mode == Loop
    ensures r.phase == AtSleep(true) || r.phase.Exited? || i == |events|
    ensures start < |events| ==> start < i
  {
    r, i := r0, start;
    while i < |events| && (r.phase == AtJob || r.phase == InJob)
      invariant start <= i <= |events| && r == Run(Loop, interval, events[..i]) && r.mode == Loop
      invariant r.phase == AtJob || r.phase == InJob || r.phase == AtSleep(true) || r.phase.Exited?
      invariant r.phase == AtJob || r.phase == InJob || start < i
      decreases |events| - i
    {
      RunSnoc(Loop, interval, events, i);
      match events[i] {
      case Cancel =>
        r := r.(cancelled := true);
      case Poll(cancelFirst, job, _) =>
        if r.cancelled && cancelFirst {
          r := if r.phase == InJob then EndJob(r, Dropped, Exited(true)) else r.(phase := Exited(true));
        } else {
          r := StartJob(r);
          if job.Finished? {
            r := if job.ok then EndJob(r, Succeeded, AtSleep(true)) else EndJob(r, Errored, Exited(false));
          } else if r.cancelled {
            r := EndJob(r, Dropped, Exited(true));
          }
        }
      }
      i := i + 1;
    }
  }

  /** The second select: the timer against the token. */
  method SleepSelect(r0: Runner, interval: nat, events: seq<Event>, start: nat) returns (r: Runner, i: nat)
    requires start <= |events| && r0 == Run(Loop, interval, events[..start]) && r0.mode == Loop
             && r0.phase == AtSleep(true)
    ensures start <= i <= |events| && r == Run(Loop, interval, events[..i]) && r.mode == Loop
    ensures r.phase == AtJob || r.phase.Exited? || i == |events|
  {
    r, i := r0, start;
    while i < |events| && r.phase.AtSleep?
      invariant start <= i <= |events| && r == Run(Loop, interval, events[..i]) && r.mode == Loop
      invariant r.phase == AtJob || r.phase.AtSleep? || r.phase.Exited?
      decreases |events| - i
    {
      RunSnoc(Loop, interval, events, i);
      match events[i] {
      case Cancel =>
        r := r.(cancelled := true);
      case Poll(cancelFirst, _, elapsed) =>
        var ready := elapsed && (interval == 0 || !r.phase.unpolled);
        if r.cancelled && (cancelFirst || !ready) {
          r := r.(phase := Exited(true));
        } else if ready {
          r := r.(phase := AtJob);
        } else {
          r := r.(phase := AtSleep(false));
        }
      }
      i := i + 1;
    }
  }

  /** The loop mode of `JobRunner::run` over the events it meets: a job select,
      then a sleep select, until one of them leaves the loop. */
  method RunLoop(interval: nat, events: seq<Event>) returns (final: Runner)
    ensures final == Run(Loop, interval, events)
  {
    var i := 0;
    final := Start(Loop);
    assert events[..0] == [];
    while i < |events| && !final.phase.Exited?
      invariant i <= |events| && final == Run(Loop, interval, events[..i]) && final.mode == Loop
      invariant final.phase == AtJob || final.phase.Exited? || i == |events|
      decreases |events| - i
    {
      final, i := JobSelect(final, interval, events, i);
      if final.phase == AtSleep(true) {
        final, i := SleepSelect(final, interval, events, i);
      }
    }
    ExitedOrDone(interval, events, i);
  }

  lemma ExitedOrDone(interval: nat, events: seq<Event>, i: nat)
    requires i <= |events| && (i == |events| || Run(Loop, interval, events[..i]).phase.Exited?)
    ensures Run(Loop, interval, events) == Run(Loop, interval, events[..i])
  {
    if i == |events| {
      assert events[..i] == events;
    } else {
      ExitedStays(Loop, interval, events, i);
    }
  }

  function Polls(events: seq<Event>): nat {
    if events == [] then 0 else Polls(events[..|events| - 1]) + if events[|events| - 1].Poll? then 1 else 0
  }

  // ----- Idle and once -----

  /** Idle mode starts no job and leaves exactly when it is polled after a
      cancellation. */
  lemma {:induction false} IdleStartsNothing(interval: nat, events: seq<Event>)
    ensures var r := Run(Idle, interval, events);
      && r.started == 0 && r.ends == []
      && (r.phase == Waiting || r.phase == Exited(true))
      && (r.cancelled <==> Cancel in events)
      && (r.phase == Exited(true) <==> exists i, j :: 0 <= i < j < |events| && events[i] == Cancel && events[j].Poll?)
    decreases |events|
  {
    if events != [] {
      var front, last := events[..|events| - 1], events[|events| - 1];
      assert events == front + [last];
      IdleStartsNothing(interval, front);
      if exists i, j :: 0 <= i < j < |front| && front[i] == Cancel && front[j].Poll? {
        var i, j :| 0 <= i < j < |front| && front[i] == Cancel && front[j].Poll?;
        assert events[i] == Cancel && events[j].Poll?;
      } else if last.Poll? && Cancel in front {
        var i :| 0 <= i < |front| && front[i] == Cancel;
        assert events[i] == Cancel && events[|front|].Poll?;
      }
    }
  }

  /** What the job answers when a poll first finds it finished. */
  function FirstAnswer(events: seq<Event>): Option<bool> {
    if events == [] then None
    else
      var front, last := FirstAnswer(events[..|events| - 1]), events[|events| - 1];
      if front.Some? then front
      else if last.Poll? && last.job.Finished? then Some(last.job.ok)
      else None
  }

  /** Once mode starts the job at its first poll, exactly once, and exits with
      the job's own answer; no cancellation changes that. */
  lemma {:induction false} OnceRunsExactlyOne(interval: nat, events: seq<Event>)
    ensures var r := Run(Once, interval, events);
      && r.mode == Once
      && r.started == (if Polls(events) > 0 then 1 else 0)
      && (FirstAnswer(events).Some? ==> Polls(events) > 0)
      && (match FirstAnswer(events)
          case None => r.ends == [] && r.phase == (if Polls(events) > 0 then InJob else AtJob)
          case Some(ok) => r.ends == [if ok then Succeeded else Errored] && r.phase == Exited(ok))
    decreases |events|
  {
    if events != [] {
      OnceRunsExactlyOne(interval, events[..|events| - 1]);
    }
  }

  // ----- Loop -----

  /** Jobs never overlap, the loop stops at the first error, and a job is only
      dropped by the cancellation that ends the loop. */
  ghost predicate LoopOk(r: Runner) {
    && r.mode == Loop && r.phase != Waiting
    && r.started == |r.ends| + (if r.phase == InJob then 1 else 0)
    && (forall i | 0 <= i < |r.ends| - 1 :: r.ends[i] == Succeeded)
    && (r.ends != [] && r.ends[|r.ends| - 1] == Errored <==> r.phase == Exited(false))
    && (r.ends != [] && r.ends[|r.ends| - 1] == Dropped ==> r.phase == Exited(true) && r.cancelled)
    && (r.phase == Exited(true) ==> r.cancelled)
  }

  lemma {:induction false} LoopJobsAreSequential(interval: nat, events: seq<Event>)
    ensures LoopOk(Run(Loop, interval, events))
    decreases |events|
  {
    if events != [] {
      LoopJobsAreSequential(interval, events[..|events| - 1]);
    }
  }

  /** How much the loop can still do once it is cancelled. */
  function LateBudget(phase: Phase): nat {
    if phase == AtSleep(false) || phase == AtJob then 1 else 0
  }

  lemma {:induction false} LateBudgetHolds(interval: nat, events: seq<Event>)
    requires interval > 0
    ensures var r := Run(Loop, interval, events);
      r.mode == Loop && (if r.cancelled then r.startedLate + LateBudget(r.phase) <= 1 else r.startedLate == 0)
    decreases |events|
  {
    if events != [] {
      LateBudgetHolds(interval, events[..|events| - 1]);
    }
  }

  function ZeroIntervalCycle(n: nat): seq<Event> {
    if n == 0 then [Cancel]
    else ZeroIntervalCycle(n - 1) + [Poll(false, Finished(true), true)] + [Poll(false, Finished(true), true)]
  }

  lemma RunLast(mode: Mode, interval: nat, events: seq<Event>, last: Event)
    ensures Run(mode, interval, events + [last]) == Exec(Run(mode, interval, events), interval, last)
  {
    assert (events + [last])[..|events|] == events;
  }

  /** Cancelled, `n` jobs started and succeeded since, about to start another. */
  function AfterCycles(n: nat): Runner {
    Runner(Loop, true, AtJob, n, n, seq(n, _ => Succeeded))
  }

  lemma OneCycle(n: nat)
    ensures var poll := Poll(false, Finished(true), true);
            Exec(Exec(AfterCycles(n), 0, poll), 0, poll) == AfterCycles(n + 1)
  {
    assert seq(n, _ => Succeeded) + [Succeeded] == seq(n + 1, _ => Succeeded);
  }

  /** With no pause between jobs, cancellation can lose every draw. */
  lemma {:induction false} ZeroIntervalStartsMany(n: nat)
    ensures Run(Loop, 0, ZeroIntervalCycle(n)) == AfterCycles(n)
  {
    if n == 0 {
      RunLast(Loop, 0, [], Cancel);
      assert [] + [Cancel] == [Cancel];
    } else {
      var poll := Poll(false, Finished(true), true);
      ZeroIntervalStartsMany(n - 1);
      RunLast(Loop, 0, ZeroIntervalCycle(n - 1), poll);
      RunLast(Loop, 0, ZeroIntervalCycle(n - 1) + [poll], poll);
      OneCycle(n - 1);
    }
  }

  /** At most one job is started after a cancellation, whatever the order of the
      branches, exactly when the interval is positive (the configuration
      refuses zero). */
  lemma AtMostOneLateStartIff(interval: nat)
    ensures (forall events :: Run(Loop, interval, events).startedLate <= 1) <==> interval > 0
  {
    if interval > 0 {
      forall events ensures Run(Loop, interval, events).startedLate <= 1 {
        LateBudgetHolds(interval, events);
      }
    } else {
      ZeroIntervalStartsMany(2);
      assert Run(Loop, interval, ZeroIntervalCycle(2)).startedLate == 2;
    }
  }

  // ----- A cancelled loop leaves -----

  /** Polls until the loop has certainly left. */
  function PollsLeft(phase: Phase): nat {
    if phase == AtSleep(false) then 3
    else if phase == AtJob || phase == InJob then 2
    else if phase == AtSleep(true) then 1
    else 0
  }

  lemma {:induction false} CancelledLoopLeaves(interval: nat, before: seq<Event>, after: seq<Event>)
    requires interval > 0
    ensures var r := Run(Loop, interval, before + [Cancel] + after);
      && r.mode == Loop && r.phase != Waiting && (r.cancelled || r.phase.Exited?)
      && (r.phase.Exited? || PollsLeft(r.phase) + Polls(after) <= 3)
    decreases |after|
  {
    var events := before + [Cancel] + after;
    if after == [] {
      assert events[..|events| - 1] == before;
      LoopJobsAreSequential(interval, before);
    } else {
      assert events[..|events| - 1] == before + [Cancel] + after[..|after| - 1];
      CancelledLoopLeaves(interval, before, after[..|after| - 1]);
    }
  }

  /** Three polls after a cancellation, wherever it falls, a loop with a positive
      interval has exited: with the job's error if the job failed, without one
      otherwise. */
  lemma ThreePollsAfterCancel(interval: nat, before: seq<Event>, after: seq<Event>)
    requires interval > 0 && Polls(after) >= 3
    ensures var r := Run(Loop, interval, before + [Cancel] + after);
      && r.phase.Exited?
      && (r.phase.ok <==> forall i | 0 <= i < |r.ends| :: r.ends[i] != Errored)
  {
    var events := before + [Cancel] + after;
    CancelledLoopLeaves(interval, before, after);
    LoopJobsAreSequential(interval, events);
  }
}
