/** What loop mode does until it is cancelled, read off the polls alone: jobs and
    sleeps alternate, and a sleep is left exactly when its time has elapsed. */
module JobCycles {
  import opened JobRunner

  // ----- Reading the polls -----

  predicate NoCancel(events: seq<Event>) {
    forall i | 0 <= i < |events| :: events[i].Poll?
  }

  /** A job first polled at `i` answers at `j`. */
  predicate JobAnswers(events: seq<Event>, i: nat, j: nat, ok: bool)
    requires NoCancel(events)
  {
    i <= j < |events| && (forall k | i <= k < j :: events[k].job.StillRunning?) && events[j].job == Finished(ok)
  }

  /** A sleep whose timer is first polled at `i` finds it elapsed at `j`: at any
      poll when the interval is zero, after the first one otherwise. */
  predicate Elapses(interval: nat, events: seq<Event>, i: nat, j: nat)
    requires NoCancel(events)
  {
    && i <= j < |events| && events[j].elapsed && (interval == 0 || j > i)
    && forall k | i <= k < j :: !events[k].elapsed || (interval > 0 && k == i)
  }

  /** A job that succeeds, and the sleep after it, from `i` up to `next`. */
  ghost predicate Cycle(interval: nat, events: seq<Event>, i: nat, next: nat)
    requires NoCancel(events)
  {
    next > 0 && exists j: nat :: JobAnswers(events, i, j, true) && Elapses(interval, events, j + 1, next - 1)
  }

  ghost predicate NoCycle(interval: nat, events: seq<Event>, i: nat)
    requires NoCancel(events)
  {
    forall next: nat :: !Cycle(interval, events, i, next)
  }

  /** `cuts` are the polls at which cycles begin; the last one begins no complete
      cycle. */
  ghost predicate Cycles(interval: nat, events: seq<Event>, cuts: seq<nat>)
    requires NoCancel(events)
  {
    && cuts != [] && cuts[0] == 0
    && (forall m | 0 <= m < |cuts| - 1 :: Cycle(interval, events, cuts[m], cuts[m + 1]))
    && NoCycle(interval, events, cuts[|cuts| - 1])
  }

  // ----- One cycle -----

  lemma {:induction false} JobUnderWay(interval: nat, events: seq<Event>, i: nat, m: nat)
    requires NoCancel(events) && i < m <= |events|
    requires var r := Run(Loop, interval, events[..i]); r.mode == Loop && r.phase == AtJob && !r.cancelled
    requires forall k | i <= k < m :: events[k].job.StillRunning?
    ensures var r := Run(Loop, interval, events[..i]);
            Run(Loop, interval, events[..m]) == r.(phase := InJob, started := r.started + 1)
    decreases m
  {
    RunSnoc(Loop, interval, events, m - 1);
    if m - 1 > i {
      JobUnderWay(interval, events, i, m - 1);
    }
  }

  lemma JobEnds(interval: nat, events: seq<Event>, i: nat, j: nat, ok: bool)
    requires NoCancel(events) && JobAnswers(events, i, j, ok)
    requires var r := Run(Loop, interval, events[..i]); r.mode == Loop && r.phase == AtJob && !r.cancelled
    ensures var r := Run(Loop, interval, events[..i]);
            Run(Loop, interval, events[..j + 1])
              == r.(phase := if ok then AtSleep(true) else Exited(false), started := r.started + 1,
                    ends := r.ends + [if ok then Succeeded else Errored])
  {
    RunSnoc(Loop, interval, events, j);
    if i < j {
      JobUnderWay(interval, events, i, j);
    }
  }

  /** The timer of a sleep entered at `i` has not elapsed before `m`. */
  predicate SleepsUntil(interval: nat, events: seq<Event>, i: nat, m: nat)
    requires NoCancel(events)
  {
    i <= m <= |events| && forall k | i <= k < m :: !events[k].elapsed || (interval > 0 && k == i)
  }

  lemma SleepGoesOn(interval: nat, events: seq<Event>, m: nat)
    requires NoCancel(events) && m < |events|
    requires var r := Run(Loop, interval, events[..m]);
             r.phase.AtSleep? && !r.cancelled && (!events[m].elapsed || (interval > 0 && r.phase.unpolled))
    ensures Run(Loop, interval, events[..m + 1]) == Run(Loop, interval, events[..m]).(phase := AtSleep(false))
  {
    RunSnoc(Loop, interval, events, m);
  }

  lemma {:induction false} SleepUnderWay(interval: nat, events: seq<Event>, i: nat, m: nat)
    requires NoCancel(events) && SleepsUntil(interval, events, i, m)
    requires var r := Run(Loop, interval, events[..i]); r.phase == AtSleep(true) && !r.cancelled
    ensures var r := Run(Loop, interval, events[..i]);
            Run(Loop, interval, events[..m]) == r.(phase := AtSleep(m == i))
    decreases m
  {
    if m > i {
      SleepUnderWay(interval, events, i, m - 1);
      SleepGoesOn(interval, events, m - 1);
    }
  }

  /** A sleep is left exactly at the poll that finds its time elapsed. */
  lemma SleepLeftIff(interval: nat, events: seq<Event>, i: nat, m: nat)
    requires NoCancel(events) && i <= m < |events|
    requires var r := Run(Loop, interval, events[..i]); r.phase == AtSleep(true) && !r.cancelled
    requires SleepsUntil(interval, events, i, m)
    ensures var r := Run(Loop, interval, events[..i]);
            Run(Loop, interval, events[..m + 1])
              == r.(phase := if Elapses(interval, events, i, m) then AtJob else AtSleep(false))
  {
    SleepUnderWay(interval, events, i, m);
    RunSnoc(Loop, interval, events, m);
  }

  lemma OneCycleRuns(interval: nat, events: seq<Event>, i: nat, next: nat)
    requires NoCancel(events) && Cycle(interval, events, i, next)
    requires var r := Run(Loop, interval, events[..i]); r.mode == Loop && r.phase == AtJob && !r.cancelled
    ensures i < next <= |events|
    ensures var r := Run(Loop, interval, events[..i]);
            Run(Loop, interval, events[..next]) == r.(started := r.started + 1, ends := r.ends + [Succeeded])
  {
    var j: nat :| JobAnswers(events, i, j, true) && Elapses(interval, events, j + 1, next - 1);
    JobEnds(interval, events, i, j, true);
    SleepEnds(interval, events, j + 1, next - 1);
  }

  lemma SleepEnds(interval: nat, events: seq<Event>, i: nat, m: nat)
    requires NoCancel(events) && Elapses(interval, events, i, m)
    requires var r := Run(Loop, interval, events[..i]); r.phase == AtSleep(true) && !r.cancelled
    ensures m < |events| && Run(Loop, interval, events[..m + 1]) == Run(Loop, interval, events[..i]).(phase := AtJob)
  {
    assert SleepsUntil(interval, events, i, m);
    SleepLeftIff(interval, events, i, m);
  }

  // ----- The whole run -----

  lemma {:induction false} CyclesRun(interval: nat, events: seq<Event>, cuts: seq<nat>, m: nat)
    requires NoCancel(events) && Cycles(interval, events, cuts) && m < |cuts|
    ensures cuts[m] <= |events|
    ensures Run(Loop, interval, events[..cuts[m]]) == Runner(Loop, false, AtJob, m, 0, seq(m, _ => Succeeded))
    decreases m
  {
    if m == 0 {
      assert seq(0, _ => Succeeded) == [];
    } else {
      CyclesRun(interval, events, cuts, m - 1);
      assert Cycle(interval, events, cuts[m - 1], cuts[m - 1 + 1]);
      OneCycleRuns(interval, events, cuts[m - 1], cuts[m]);
      assert seq(m - 1, _ => Succeeded) + [Succeeded] == seq(m, _ => Succeeded);
    }
  }

  /** Until it is cancelled the loop has started one job for every complete cycle,
      and one more as soon as it is polled again: that job is still under way, or
      it failed and the loop is left, or it succeeded and the sleep after it has
      not elapsed. */
  lemma LoopRunsCycles(interval: nat, events: seq<Event>, cuts: seq<nat>)
    requires NoCancel(events) && Cycles(interval, events, cuts)
    ensures var r, last := Run(Loop, interval, events), cuts[|cuts| - 1];
      && last <= |events| && r.started == |cuts| - 1 + (if last < |events| then 1 else 0)
      && (r.phase == AtJob <==> last == |events|)
      && (r.phase == Exited(false) <==> exists j :: JobAnswers(events, last, j, false))
      && (r.phase.AtSleep? <==> exists j :: JobAnswers(events, last, j, true))
      && (r.phase == InJob <==> last < |events| && forall k | last <= k < |events| :: events[k].job.StillRunning?)
  {
    var n := |cuts| - 1;
    var last := cuts[n];
    CyclesRun(interval, events, cuts, n);
    assert events[..|events|] == events;
    if last < |events| {
      if forall k | last <= k < |events| :: events[k].job.StillRunning? {
        JobUnderWay(interval, events, last, |events|);
      } else {
        var j, ok := FirstAnswerFrom(events, last);
        LastJobAnswers(interval, events, last, j, ok);
        OneAnswer(events, last, j, ok);
      }
    }
  }

  lemma OneAnswer(events: seq<Event>, i: nat, j: nat, ok: bool)
    requires NoCancel(events) && JobAnswers(events, i, j, ok)
    ensures forall k, other | JobAnswers(events, i, k, other) :: k == j && other == ok
  {
  }

  lemma {:induction false} FirstAnswerFrom(events: seq<Event>, i: nat) returns (j: nat, ok: bool)
    requires NoCancel(events) && i <= |events|
    requires exists k :: i <= k < |events| && !events[k].job.StillRunning?
    ensures JobAnswers(events, i, j, ok)
    decreases |events| - i
  {
    if events[i].job.StillRunning? {
      j, ok := FirstAnswerFrom(events, i + 1);
    } else {
      j, ok := i, events[i].job.ok;
    }
  }

  lemma LastJobAnswers(interval: nat, events: seq<Event>, i: nat, j: nat, ok: bool)
    requires NoCancel(events) && JobAnswers(events, i, j, ok)
    requires var r := Run(Loop, interval, events[..i]); r.mode == Loop && r.phase == AtJob && !r.cancelled
    requires NoCycle(interval, events, i)
    ensures Run(Loop, interval, events).started == Run(Loop, interval, events[..i]).started + 1
    ensures if ok then Run(Loop, interval, events).phase == AtSleep(j + 1 == |events|)
            else Run(Loop, interval, events).phase == Exited(false)
  {
    JobEnds(interval, events, i, j, ok);
    assert events[..|events|] == events;
    if ok {
      NeverElapses(interval, events, i, j, |events|);
      SleepUnderWay(interval, events, j + 1, |events|);
    } else {
      ExitedStays(Loop, interval, events, j + 1);
    }
  }

  lemma {:induction false} NeverElapses(interval: nat, events: seq<Event>, i: nat, j: nat, m: nat)
    requires NoCancel(events) && JobAnswers(events, i, j, true) && j + 1 <= m <= |events|
    requires NoCycle(interval, events, i)
    ensures SleepsUntil(interval, events, j + 1, m)
    decreases m
  {
    if m > j + 1 {
      NeverElapses(interval, events, i, j, m - 1);
      assert !Cycle(interval, events, i, m);
    }
  }

  // ----- Every run is such a run -----

  /** Any polls can be read as cycles. */
  lemma {:induction false} CyclesFrom(interval: nat, events: seq<Event>, i: nat) returns (cuts: seq<nat>)
    requires NoCancel(events) && i <= |events|
    ensures cuts != [] && cuts[0] == i
    ensures forall m | 0 <= m < |cuts| - 1 :: Cycle(interval, events, cuts[m], cuts[m + 1])
    ensures NoCycle(interval, events, cuts[|cuts| - 1])
    decreases |events| - i
  {
    if next: nat :| Cycle(interval, events, i, next) {
      var rest := CyclesFrom(interval, events, next);
      cuts := [i] + rest;
      forall m | 0 <= m < |cuts| - 1 ensures Cycle(interval, events, cuts[m], cuts[m + 1]) {
        if m > 0 { assert Cycle(interval, events, rest[m - 1], rest[m]); }
      }
    } else {
      cuts := [i];
    }
  }

  lemma EveryRunIsCycles(interval: nat, events: seq<Event>)
    requires NoCancel(events)
    ensures exists cuts :: Cycles(interval, events, cuts)
  {
    var cuts := CyclesFrom(interval, events, 0);
    assert Cycles(interval, events, cuts);
  }

  // ----- As many jobs as one likes -----

  const WORK := Poll(false, Finished(true), false)
  const TICK := Poll(false, StillRunning, true)

  /** `n` cycles: a job that answers at once, a poll of the new timer and one that
      finds it elapsed. */
  function Days(n: nat): seq<Event> {
    if n == 0 then [] else Days(n - 1) + [WORK] + [TICK] + [TICK]
  }

  lemma DayRuns(interval: nat, n: nat)
    requires interval > 0
    ensures Exec(Exec(Exec(AfterDays(n), interval, WORK), interval, TICK), interval, TICK) == AfterDays(n + 1)
  {
    assert seq(n, _ => Succeeded) + [Succeeded] == seq(n + 1, _ => Succeeded);
  }

  function AfterDays(n: nat): Runner { Runner(Loop, false, AtJob, n, 0, seq(n, _ => Succeeded)) }

  /** With a positive interval the loop keeps running jobs: for every `n` there is
      a run that has started and finished `n` of them. */
  lemma {:induction false} LoopKeepsRunning(interval: nat, n: nat)
    requires interval > 0
    ensures Run(Loop, interval, Days(n)).started == n && !Run(Loop, interval, Days(n)).phase.Exited?
    ensures Run(Loop, interval, Days(n)) == AfterDays(n)
  {
    if n == 0 {
      assert AfterDays(0).ends == [];
    } else {
      LoopKeepsRunning(interval, n - 1);
      RunLast(Loop, interval, Days(n - 1), WORK);
      RunLast(Loop, interval, Days(n - 1) + [WORK], TICK);
      RunLast(Loop, interval, Days(n - 1) + [WORK] + [TICK], TICK);
      DayRuns(interval, n - 1);
    }
  }
}
