/**
 Block times that are checked and reduced while a task retries (`xTaskCheckForTimeOut`), and
 periodic delays (`xTaskDelayUntil`), both computed on the wrapping tick count, compared with
 the same questions asked of an unbounded clock. `now` is the unbounded time: the tick count is
 `Low(now)` and the wrap counter, a 32-bit word itself, is `Low(Epoch(now))`.
 */
module Timeouts {
  import opened Wrappers
  import opened Word32
  import opened Tasks
  import opened TaskPartition
  import opened TaskTime
  import opened Kernels
  import TaskRuns

  // ---------- Timeouts ----------

  /** `TimeOut_t`. */
  datatype Mark = Mark(overflowCount: Tick, timeOnEntering: Tick)

  function MarkAt(now: nat): Mark {
    Mark(Low(Epoch(now)), Low(now))
  }

  datatype Verdict = Verdict(expired: bool, left: Tick, mark: Mark)

  /** What `xTaskCheckForTimeOut` returns and writes, in terms of the two words it reads. */
  function Check(mark: Mark, ticksToWait: Tick, tick: Tick, overflows: Tick): Verdict {
    var elapsed := Sub(tick, mark.timeOnEntering);
    if ticksToWait == MAX_DELAY then Verdict(false, ticksToWait, mark)
    else if overflows != mark.overflowCount && tick >= mark.timeOnEntering then Verdict(true, 0, mark)
    else if elapsed < ticksToWait then Verdict(false, ticksToWait - elapsed, Mark(overflows, tick))
    else Verdict(true, 0, mark)
  }

  class TimeOut {
    var overflowCount: Tick
    var timeOnEntering: Tick

    function Value(): Mark
      reads this
    {
      Mark(overflowCount, timeOnEntering)
    }

    /** `vTaskSetTimeOutState`. */
    constructor (tick: Tick, overflows: Tick)
      ensures Value() == Mark(overflows, tick)
    {
      overflowCount, timeOnEntering := overflows, tick;
    }

    /** `xTaskCheckForTimeOut`. */
    method CheckForTimeOut(tick: Tick, overflows: Tick, ticksToWait: Tick) returns (expired: bool, left: Tick)
      modifies this
      ensures Verdict(expired, left, Value()) == Check(old(Value()), ticksToWait, tick, overflows)
    {
      left := ticksToWait;
      var elapsed := Sub(tick, timeOnEntering);
      if ticksToWait == MAX_DELAY {
        expired := false;
      } else if overflows != overflowCount && tick >= timeOnEntering {
        expired := true;
        left := 0;
      } else if elapsed < ticksToWait {
        left := left - elapsed;
        overflowCount, timeOnEntering := overflows, tick;
        expired := false;
      } else {
        left := 0;
        expired := true;
      }
    }
  }

  /** The check, asked at unbounded times. */
  function CheckAt(entered: nat, ticksToWait: Tick, now: nat): Verdict {
    Check(MarkAt(entered), ticksToWait, Low(now), Low(Epoch(now)))
  }

  /**
   Whole wraps went by unnoticed: what exceeds them is within the limit, and either it carries
   the tick count past another wrap, or the wrap counter, itself a word, has come round.
   */
  predicate Aliased(entered: nat, ticksToWait: Tick, now: nat)
    requires entered <= now
  {
    var wraps, rest := (now - entered) / WRAP, (now - entered) % WRAP;
    1 <= wraps && rest < ticksToWait && (Low(entered) + rest >= WRAP || wraps % WRAP == 0)
  }

  /** With a limit, the check is right about expiry exactly when the elapsed time has not aliased. */
  lemma RightUnlessAliased(entered: nat, ticksToWait: Tick, now: nat)
    requires entered <= now && ticksToWait != MAX_DELAY
    ensures (CheckAt(entered, ticksToWait, now).expired <==> now - entered >= ticksToWait) <==> !Aliased(entered, ticksToWait, now)
  {
    var wraps, rest := (now - entered) / WRAP, (now - entered) % WRAP;
    assert now == entered + rest + WRAP * wraps;
    WordsLater(entered, wraps, rest);
  }

  /** The two words after so many wraps and a rest. */
  lemma WordsLater(entered: nat, wraps: nat, rest: Tick)
    ensures var now := entered + rest + WRAP * wraps;
            && Low(now) == Add(Low(entered), rest) && Sub(Low(now), Low(entered)) == rest
            && (Low(now) < Low(entered) <==> Low(entered) + rest >= WRAP)
            && Epoch(now) == Epoch(entered) + wraps + (if Low(entered) + rest >= WRAP then 1 else 0)
            && (Low(entered) + rest < WRAP ==> (Low(Epoch(now)) == Low(Epoch(entered)) <==> wraps % WRAP == 0))
  {}

  /** An input for which it is wrong: a limit of 10 ticks is not seen to have passed after 2^32 + 2. */
  lemma LateUnseen()
    ensures !CheckAt(0xFFFF_FFFF, 10, 0x2_0000_0001).expired && 0x2_0000_0001 - 0xFFFF_FFFF >= 10
  {
    RightUnlessAliased(0xFFFF_FFFF, 10, 0x2_0000_0001);
  }

  /** Without a limit no check ever expires, at whatever times they are made. */
  lemma {:induction false} NeverWithoutLimit(entered: nat, times: seq<nat>)
    ensures var verdicts := Checks(entered, MAX_DELAY, times);
            |verdicts| == |times| && forall k :: 0 <= k < |verdicts| ==> !verdicts[k].expired && verdicts[k].left == MAX_DELAY
    decreases |times|
  {
    if times != [] { NeverWithoutLimit(times[0], times[1..]); }
  }

  /** At most one wrap between entering and checking: exact expiry, exact remaining time. */
  lemma CheckExact(entered: nat, ticksToWait: Tick, now: nat)
    requires entered <= now && Epoch(now) <= Epoch(entered) + 1 && ticksToWait != MAX_DELAY
    ensures var v := CheckAt(entered, ticksToWait, now);
            && (v.expired <==> now - entered >= ticksToWait)
            && v.left == (if v.expired then 0 else ticksToWait - (now - entered))
            && (!v.expired ==> v.mark == MarkAt(now))
  {
    if now < entered + WRAP {
      WordsLater(entered, 0, now - entered);
    } else {
      EpochsApart(entered, now);
      WordsLater(entered, 1, now - entered - WRAP);
    }
  }

  lemma EpochsApart(entered: nat, now: nat)
    requires entered + WRAP <= now && Epoch(now) <= Epoch(entered) + 1
    ensures Epoch(now) == Epoch(entered) + 1 && Low(Epoch(now)) != Low(Epoch(entered)) && Low(now) >= Low(entered)
  {}

  /** Checks at the given times, each with what the one before left, up to the first timeout. */
  function Checks(entered: nat, ticksToWait: Tick, times: seq<nat>): (verdicts: seq<Verdict>)
    ensures |verdicts| <= |times|
    decreases |times|
  {
    if times == [] then []
    else
      var v := CheckAt(entered, ticksToWait, times[0]);
      [v] + if v.expired then [] else Checks(times[0], v.left, times[1..])
  }

  ghost predicate OneWrapApart(entered: nat, times: seq<nat>) {
    && (times != [] ==> entered <= times[0] && Epoch(times[0]) <= Epoch(entered) + 1)
    && forall i :: 0 < i < |times| ==> times[i - 1] <= times[i] && Epoch(times[i]) <= Epoch(times[i - 1]) + 1
  }

  lemma RestApart(entered: nat, times: seq<nat>)
    requires OneWrapApart(entered, times) && times != []
    ensures OneWrapApart(times[0], times[1..])
  {
    assert forall i :: 0 <= i < |times| - 1 ==> times[1..][i] == times[i + 1];
  }

  /**
   Over any sequence of checks: while none has expired, what is left plus the unbounded time
   since the first entry is the original budget; and the first to expire is the first made at
   least the whole budget after the entry.
   */
  lemma {:induction false} BudgetConserved(entered: nat, budget: Tick, times: seq<nat>, k: nat)
    requires OneWrapApart(entered, times) && budget != MAX_DELAY && k < |Checks(entered, budget, times)|
    ensures entered <= times[k]
    ensures Checks(entered, budget, times)[k].expired <==> times[k] - entered >= budget
    ensures !Checks(entered, budget, times)[k].expired ==>
              Checks(entered, budget, times)[k].left + (times[k] - entered) == budget
    decreases |times|
  {
    var v := CheckAt(entered, budget, times[0]);
    CheckExact(entered, budget, times[0]);
    if k > 0 {
      RestApart(entered, times);
      BudgetConserved(times[0], v.left, times[1..], k - 1);
      assert Checks(entered, budget, times)[k] == Checks(times[0], v.left, times[1..])[k - 1];
    }
  }

  /** Every check up to the first that is late enough is made, and no other. */
  lemma {:induction false} ChecksEndAtFirstLate(entered: nat, budget: Tick, times: seq<nat>)
    requires OneWrapApart(entered, times) && budget != MAX_DELAY
    ensures var n := |Checks(entered, budget, times)|;
            && (forall i :: 0 <= i < n - 1 ==> times[i] - entered < budget)
            && (n < |times| ==> n > 0 && times[n - 1] - entered >= budget)
  {
    var verdicts := Checks(entered, budget, times);
    forall i | 0 <= i < |verdicts| - 1 ensures times[i] - entered < budget {
      OnlyLastExpires(entered, budget, times, i);
      BudgetConserved(entered, budget, times, i);
    }
    if |verdicts| < |times| {
      StopsOnlyWhenExpired(entered, budget, times);
      BudgetConserved(entered, budget, times, |verdicts| - 1);
    }
  }

  lemma {:induction false} OnlyLastExpires(entered: nat, budget: Tick, times: seq<nat>, i: nat)
    requires i < |Checks(entered, budget, times)| - 1
    ensures !Checks(entered, budget, times)[i].expired
    decreases |times|
  {
    if i > 0 { OnlyLastExpires(times[0], CheckAt(entered, budget, times[0]).left, times[1..], i - 1); }
  }

  lemma {:induction false} StopsOnlyWhenExpired(entered: nat, budget: Tick, times: seq<nat>)
    requires |Checks(entered, budget, times)| < |times|
    ensures var v := Checks(entered, budget, times); v != [] && v[|v| - 1].expired
    decreases |times|
  {
    var v := CheckAt(entered, budget, times[0]);
    if !v.expired { StopsOnlyWhenExpired(times[0], v.left, times[1..]); }
  }

  // ---------- Periodic delays ----------

  /** The decision `xTaskDelayUntil` takes on three words. */
  function ShouldDelay(previousWake: Tick, increment: Tick, tick: Tick): bool {
    var wake := Add(previousWake, increment);
    if tick < previousWake then wake < previousWake && wake > tick
    else wake < previousWake || wake > tick
  }

  /** It delays exactly if the next wake time is still ahead, and then for the time that is left. */
  lemma DelayDecisionExact(previous: nat, increment: Tick, now: nat)
    requires previous <= now < previous + WRAP && 0 < increment
    ensures ShouldDelay(Low(previous), increment, Low(now)) <==> now < previous + increment
    ensures now < previous + increment ==> Sub(Add(Low(previous), increment), Low(now)) == previous + increment - now
  {
    AddTracks(previous, increment);
    if now < previous + increment { SubTracks(previous + increment, now); }
  }

  /** `xTaskDelayUntil`: what it makes of the scheduler state. */
  function DelayUntilState(s: Sched, previousWake: Tick, increment: Tick): Sched {
    var s1 := SuspendAll(s);
    Tasks.ResumeAll(
      if ShouldDelay(previousWake, increment, s.clock.tick)
      then AddCurrentToDelayed(s1, Sub(Add(previousWake, increment), s.clock.tick), false) else s1)
  }

  method Decide(previousWake: Tick, increment: Tick, tick: Tick) returns (shouldDelay: bool, nextWake: Tick)
    ensures shouldDelay == ShouldDelay(previousWake, increment, tick) && nextWake == Add(previousWake, increment)
  {
    shouldDelay := false;
    nextWake := Add(previousWake, increment);
    if tick < previousWake {
      if nextWake < previousWake && nextWake > tick { shouldDelay := true; }
    } else {
      if nextWake < previousWake || nextWake > tick { shouldDelay := true; }
    }
  }

  method DelayUntil(kernel: Kernel, previousWake: Tick, increment: Tick) returns (shouldDelay: bool, nextWake: Tick)
    requires Partition(kernel.State()) && kernel.current in kernel.tcb && kernel.suspended == 0 && kernel.pendingReady == []
    requires 0 < increment
    modifies kernel
    ensures kernel.State() == DelayUntilState(old(kernel.State()), previousWake, increment)
    ensures shouldDelay == ShouldDelay(previousWake, increment, old(kernel.tick))
    ensures nextWake == Add(previousWake, increment)
  {
    SameLists(kernel.State(), SuspendAll(kernel.State()), {});
    kernel.suspended := kernel.suspended + 1;
    shouldDelay, nextWake := Decide(previousWake, increment, kernel.tick);
    assert kernel.State() == SuspendAll(old(kernel.State()));
    if shouldDelay {
      AddCurrentToDelayedKeeps(kernel.State(), Sub(nextWake, kernel.tick), false);
      kernel.AddCurrentTaskToDelayedList(Sub(nextWake, kernel.tick), false);
    }
    var _ := kernel.ResumeAll();
  }

  lemma TicksLeft(s: Sched, previous: nat, increment: Tick)
    requires previous <= Now(s) < previous + increment
    ensures Sub(Add(Low(previous), increment), s.clock.tick) == previous + increment - Now(s)
  {
    assert Low(Now(s)) == s.clock.tick;
    DelayDecisionExact(previous, increment, Now(s));
  }

  /**
   The whole call: until one period after its previous wake time the caller sleeps, however late
   it called; if that time has passed, it stays ready.
   */
  lemma DelayUntilDeadline(s: Sched, previous: nat, increment: Tick)
    requires TaskRuns.Inv(s) && s.clock.suspended == 0 && s.clock.pended == 0 && s.tcb[s.current].place.Ready?
    requires previous <= Now(s) < previous + WRAP && 0 < increment
    ensures var s', t := DelayUntilState(s, Low(previous), increment), s.current;
            && TaskRuns.Inv(s') && Now(s') == Now(s) && t in s'.tcb
            && (if Now(s) < previous + increment then Sleeping(s', t) && Deadline(s', t) == previous + increment
                else s'.tcb[t] == s.tcb[t])
  {
    var s1 := SuspendAll(s);
    assert Low(Now(s)) == s.clock.tick;
    DelayDecisionExact(previous, increment, Now(s));
    TaskRuns.SuspendStep(s);
    if Now(s) < previous + increment {
      TicksLeft(s, previous, increment);
      var a := TaskRuns.Delay(Sub(Add(Low(previous), increment), s.clock.tick));
      var s2 := TaskRuns.Step(s1, a);
      TaskRuns.DelayStep(s1, a);
      DelaySetsDeadline(s1, a.ticksToWait, false);
      TaskRuns.DelayTcb(s1, a.ticksToWait, false);
      ResumeNow(s2, s.current);
    } else {
      ResumeNow(s1, s.current);
    }
  }

  /** Resuming when nothing was held back. */
  lemma ResumeNow(s: Sched, t: TaskId)
    requires TaskRuns.Inv(s) && s.clock.suspended == 1 && s.clock.pended == 0 && s.pendingReady == [] && t in s.tcb
    ensures var s' := Tasks.ResumeAll(s);
            && TaskRuns.Inv(s') && Now(s') == Now(s) && t in s'.tcb && s'.tcb[t] == s.tcb[t]
            && (Sleeping(s, t) ==> Sleeping(s', t) && Deadline(s', t) == Deadline(s, t))
  {
    TaskRuns.SomeTasks(s);
    TaskRuns.ResumeStep(s);
    ResumeWakesExactly(s);
    assert ElapsedFor(s, Tasks.ResumeAll(s), [], t);
    if Sleeping(s, t) { DeadlinesByEpoch(s, t); }
  }

  /** The wake time stored after calls with the given periods, on words. */
  function WakeAfter(start: Tick, increments: seq<Tick>): Tick {
    if increments == [] then start else Add(WakeAfter(start, increments[..|increments| - 1]), increments[|increments| - 1])
  }

  function SumOf(increments: seq<Tick>): nat {
    if increments == [] then 0 else SumOf(increments[..|increments| - 1]) + increments[|increments| - 1]
  }

  /** No drift: after any number of calls the stored time is the start plus all the periods. */
  lemma {:induction false} NoDrift(start: nat, increments: seq<Tick>)
    ensures WakeAfter(Low(start), increments) == Low(start + SumOf(increments))
  {
    if increments != [] {
      var before := increments[..|increments| - 1];
      NoDrift(start, before);
      AddTracks(start + SumOf(before), increments[|increments| - 1]);
    }
  }
}
