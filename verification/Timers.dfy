/**
 The software timers of timers.c on the words the daemon works with: two lists of expiry times
 that change places when the sampled tick count wraps, commands that arrive late, and
 auto-reload timers whose reloads have fallen behind.
 */
module Timers {
  import opened Word32
  import opened ListView
  import opened Wrappers

  type TimerId = nat

  /** `configASSERT` forbids a period of 0. */
  type Period = p: int | 0 < p < 0x1_0000_0000 witness 1

  datatype Place = Nowhere | First | Second

  /** `active`, `isStatic` and `autoReload` are the bits of `ucStatus`; `place` is the item's container. */
  datatype Timer = Timer(period: Period, active: bool, isStatic: bool, autoReload: bool, expiry: Tick, place: Place)

  datatype Daemon = Daemon(
    timers: map<TimerId, Timer>,
    first: seq<TimerId>,            // xActiveTimerList1
    second: seq<TimerId>,           // xActiveTimerList2
    firstIsCurrent: bool,           // which one pxCurrentTimerList points to
    lastTime: Tick,                 // the static variable of prvSampleTimeNow
    calls: seq<TimerId>)            // the callbacks made so far

  datatype Command =
    | Start(t: TimerId, at: Tick)                   // START and RESET, with the time of the call
    | Stop(t: TimerId)
    | ChangePeriod(t: TimerId, period: Period)
    | Delete(t: TimerId)

  function Get(d: Daemon, t: TimerId): Timer {
    if t in d.timers then d.timers[t] else Timer(1, false, false, false, 0, Nowhere)
  }

  function Put(d: Daemon, t: TimerId, timer: Timer): Daemon {
    d.(timers := d.timers[t := timer])
  }

  function At(d: Daemon, place: Place): seq<TimerId> {
    match place
    case Nowhere => []
    case First => d.first
    case Second => d.second
  }

  function SetList(d: Daemon, place: Place, list: seq<TimerId>): Daemon {
    match place
    case Nowhere => d
    case First => d.(first := list)
    case Second => d.(second := list)
  }

  function CurrentPlace(d: Daemon): Place {
    if d.firstIsCurrent then First else Second
  }

  function OverflowPlace(d: Daemon): Place {
    if d.firstIsCurrent then Second else First
  }

  function CurrentList(d: Daemon): seq<TimerId> {
    At(d, CurrentPlace(d))
  }

  function OverflowList(d: Daemon): seq<TimerId> {
    At(d, OverflowPlace(d))
  }

  function Expiries(d: Daemon, list: seq<TimerId>): (values: seq<nat>)
    ensures |values| == |list| && forall k :: 0 <= k < |list| ==> values[k] == Get(d, list[k]).expiry
  {
    seq(|list|, k requires 0 <= k < |list| => Get(d, list[k]).expiry)
  }

  /** `uxListRemove`, if the timer is in a list. */
  function Unlink(d: Daemon, t: TimerId): Daemon {
    var place := Get(d, t).place;
    Put(SetList(d, place, Minus(At(d, place), t)), t, Get(d, t).(place := Nowhere))
  }

  /** `vListInsert` by expiry time. */
  function Link(d: Daemon, place: Place, t: TimerId): Daemon {
    var list := At(d, place);
    var k := FirstGreater(Expiries(d, list), Get(d, t).expiry);
    Put(SetList(d, place, InsertAt(list, k, t)), t, Get(d, t).(place := place))
  }

  function Call(d: Daemon, t: TimerId): Daemon {
    d.(calls := d.calls + [t])
  }

  function SetActive(d: Daemon, t: TimerId, active: bool): Daemon {
    Put(d, t, Get(d, t).(active := active))
  }

  /** `prvInsertTimerInActiveList`: true says that the timer has expired and is in no list. */
  function Insert(d: Daemon, t: TimerId, expiry: Tick, now: Tick, commandTime: Tick): (Daemon, bool) {
    var d1 := Put(d, t, Get(d, t).(expiry := expiry));
    if expiry <= now then
      if Sub(now, commandTime) >= Get(d, t).period then (d1, true) else (Link(d1, OverflowPlace(d1), t), false)
    else if now < commandTime && expiry >= commandTime then (d1, true)
    else (Link(d1, CurrentPlace(d1), t), false)
  }

  /** `prvReloadTimer`. */
  function Reload(d: Daemon, t: TimerId, expired: Tick, now: Tick): (r: Daemon)
    ensures r.firstIsCurrent == d.firstIsCurrent && r.lastTime == d.lastTime
    ensures now == MAX_DELAY ==> CurrentList(r) == CurrentList(d)
    decreases Sub(now, expired)
  {
    var next := Add(expired, Get(d, t).period);
    var (d1, again) := Insert(d, t, next, now, expired);
    if again then Reload(Call(d1, t), t, next, now) else d1
  }

  /** `prvProcessExpiredTimer` on the head of the current list. */
  function ProcessExpired(d: Daemon, nextExpiry: Tick, now: Tick): (r: Daemon)
    requires CurrentList(d) != []
    ensures r.firstIsCurrent == d.firstIsCurrent && r.lastTime == d.lastTime
    ensures now == MAX_DELAY ==> CurrentList(r) == CurrentList(d)[1..]
  {
    var t := CurrentList(d)[0];
    var d1 := Put(SetList(d, CurrentPlace(d), CurrentList(d)[1..]), t, Get(d, t).(place := Nowhere));
    Call(if Get(d, t).autoReload then Reload(d1, t, nextExpiry, now) else SetActive(d1, t, false), t)
  }

  function HeadExpiry(d: Daemon): Tick {
    if CurrentList(d) == [] then 0 else Get(d, CurrentList(d)[0]).expiry
  }

  /** `prvSwitchTimerLists`. */
  function SwitchLists(d: Daemon): (r: Daemon)
    ensures r.firstIsCurrent == !d.firstIsCurrent && r.lastTime == d.lastTime
    decreases |CurrentList(d)|
  {
    if CurrentList(d) == [] then d.(firstIsCurrent := !d.firstIsCurrent)
    else SwitchLists(ProcessExpired(d, HeadExpiry(d), MAX_DELAY))
  }

  /** `prvSampleTimeNow` when the tick count is `now`; the flag says that the lists were switched. */
  function Sample(d: Daemon, now: Tick): (Daemon, bool) {
    if now < d.lastTime then (SwitchLists(d).(lastTime := now), true) else (d.(lastTime := now), false)
  }

  /** What follows the insertion of a timer that has expired already. */
  function ExpiredAtOnce(d: Daemon, t: TimerId, expiry: Tick, now: Tick): Daemon {
    Call(if Get(d, t).autoReload then Reload(d, t, expiry, now) else SetActive(d, t, false), t)
  }

  /** The insertion of a started timer that is in no list, and what follows it. */
  function Started(d: Daemon, t: TimerId, at: Tick, now: Tick): Daemon {
    var expiry := Add(at, Get(d, t).period);
    var (d1, expired) := Insert(SetActive(d, t, true), t, expiry, now, at);
    if expired then ExpiredAtOnce(d1, t, expiry, now) else d1
  }

  /** The switch in `prvProcessReceivedCommands`. */
  function CarriedOut(d: Daemon, c: Command, now: Tick): Daemon {
    var t := c.t;
    match c
    case Start(_, at) => Started(d, t, at, now)
    case Stop(_) => SetActive(d, t, false)
    case ChangePeriod(_, period) =>
      Insert(Put(d, t, Get(d, t).(active := true, period := period)), t, Add(now, period), now, now).0
    case Delete(_) => if Get(d, t).isStatic then SetActive(d, t, false) else d.(timers := d.timers - {t})
  }

  /** One command: its timer leaves its list, the time is sampled, the switch decides. */
  function Process(d: Daemon, c: Command, now: Tick): Daemon {
    CarriedOut(Sample(if Get(d, c.t).place != Nowhere then Unlink(d, c.t) else d, now).0, c, now)
  }

  /** What the daemon asks of `vQueueWaitForMessageRestricted`. */
  datatype Block = Block(ticks: Tick, indefinitely: bool)

  /** `prvGetNextExpireTime` and `prvProcessTimerOrBlockTask`. */
  function Round(d: Daemon, now: Tick): (Daemon, Option<Block>) {
    var next, wasEmpty := HeadExpiry(d), CurrentList(d) == [];
    var (d1, switched) := Sample(d, now);
    if switched then (d1, None)
    else if !wasEmpty && next <= now then (ProcessExpired(d1, next, now), None)
    else (d1, Some(Block(Sub(next, now), wasEmpty && OverflowList(d1) == [])))
  }

  // ---------- The daemon's code ----------

  class TimerDaemon {
    var timers: map<TimerId, Timer>
    var first: seq<TimerId>
    var second: seq<TimerId>
    var firstIsCurrent: bool
    var lastTime: Tick
    var calls: seq<TimerId>

    function State(): Daemon
      reads this
    {
      Daemon(timers, first, second, firstIsCurrent, lastTime, calls)
    }

    constructor ()
      ensures State() == Daemon(map[], [], [], true, 0, [])
    {
      timers, first, second, firstIsCurrent, lastTime, calls := map[], [], [], true, 0, [];
    }

    /** `xTimerCreate`. */
    method Create(t: TimerId, period: Period, isStatic: bool, autoReload: bool)
      requires t !in timers
      modifies this`timers
      ensures State() == Put(old(State()), t, Timer(period, false, isStatic, autoReload, 0, Nowhere))
    {
      timers := timers[t := Timer(period, false, isStatic, autoReload, 0, Nowhere)];
    }

    method ListRemove(t: TimerId)
      requires t in timers
      modifies this`timers, this`first, this`second
      ensures State() == Unlink(old(State()), t)
    {
      match timers[t].place {
        case Nowhere =>
        case First => first := Minus(first, t);
        case Second => second := Minus(second, t);
      }
      timers := timers[t := timers[t].(place := Nowhere)];
    }

    method ListInsert(current: bool, t: TimerId)
      requires t in timers
      modifies this`timers, this`first, this`second
      ensures State() == Link(old(State()), if current then CurrentPlace(old(State())) else OverflowPlace(old(State())), t)
    {
      var intoFirst := current == firstIsCurrent;
      var list := if intoFirst then first else second;
      var k := FirstGreater(Expiries(State(), list), timers[t].expiry);
      if intoFirst { first := InsertAt(list, k, t); } else { second := InsertAt(list, k, t); }
      timers := timers[t := timers[t].(place := if intoFirst then First else Second)];
    }

    method InsertTimerInActiveList(t: TimerId, nextExpiry: Tick, now: Tick, commandTime: Tick) returns (processNow: bool)
      requires t in timers
      modifies this`timers, this`first, this`second
      ensures (State(), processNow) == Insert(old(State()), t, nextExpiry, now, commandTime) && t in timers
    {
      processNow := false;
      timers := timers[t := timers[t].(expiry := nextExpiry)];
      if nextExpiry <= now {
        if Sub(now, commandTime) >= timers[t].period {
          processNow := true;
        } else {
          ListInsert(false, t);
        }
      } else {
        if now < commandTime && nextExpiry >= commandTime {
          processNow := true;
        } else {
          ListInsert(true, t);
        }
      }
    }

    method ReloadTimer(t: TimerId, expiredTime: Tick, now: Tick)
      requires t in timers
      modifies this`timers, this`first, this`second, this`calls
      ensures State() == Reload(old(State()), t, expiredTime, now) && t in timers
    {
      var expired := expiredTime;
      ReloadUnfolds(State(), t, expired, now);
      var again := InsertTimerInActiveList(t, Add(expired, timers[t].period), now, expired);
      while again
        invariant t in timers
        invariant Reload(old(State()), t, expiredTime, now) == Reloaded(State(), again, t, Add(expired, timers[t].period), now)
        invariant again ==> Sub(now, Add(expired, timers[t].period)) < Sub(now, expired)
        decreases Sub(now, expired)
      {
        expired := Add(expired, timers[t].period);
        calls := calls + [t];
        ReloadUnfolds(State(), t, expired, now);
        again := InsertTimerInActiveList(t, Add(expired, timers[t].period), now, expired);
      }
    }

    method ProcessExpiredTimer(nextExpiry: Tick, now: Tick)
      requires CurrentList(State()) != [] && CurrentList(State())[0] in timers
      modifies this
      ensures State() == ProcessExpired(old(State()), nextExpiry, now)
    {
      var t := CurrentList(State())[0];
      if firstIsCurrent { first := first[1..]; } else { second := second[1..]; }
      timers := timers[t := timers[t].(place := Nowhere)];
      if timers[t].autoReload {
        ReloadTimer(t, nextExpiry, now);
      } else {
        timers := timers[t := timers[t].(active := false)];
      }
      calls := calls + [t];
    }

    method SwitchTimerLists()
      requires Known(State())
      modifies this
      ensures State() == SwitchLists(old(State()))
    {
      ghost var before := State();
      while CurrentList(State()) != []
        invariant Known(State()) && SwitchLists(State()) == SwitchLists(before)
        decreases |CurrentList(State())|
      {
        ProcessExpiredKnown(State(), HeadExpiry(State()), MAX_DELAY);
        ProcessExpiredTimer(HeadExpiry(State()), MAX_DELAY);
      }
      firstIsCurrent := !firstIsCurrent;
    }

    method SampleTimeNow(now: Tick) returns (switched: bool)
      requires Known(State())
      modifies this
      ensures (State(), switched) == Sample(old(State()), now)
    {
      if now < lastTime {
        SwitchTimerLists();
        switched := true;
      } else {
        switched := false;
      }
      lastTime := now;
    }

    /** The body of the loop over the command queue. */
    method ProcessCommand(c: Command, now: Tick)
      requires Known(State()) && c.t in timers
      modifies this
      ensures State() == Process(old(State()), c, now)
    {
      var t := c.t;
      if timers[t].place != Nowhere {
        UnlinkKnown(State(), t);
        ListRemove(t);
      }
      SampleKnown(State(), now);
      var _ := SampleTimeNow(now);
      CarryOut(c, now);
    }

    /** Its switch over the kinds of command. */
    method CarryOut(c: Command, now: Tick)
      requires c.t in timers
      modifies this`timers, this`first, this`second, this`calls
      ensures State() == CarriedOut(old(State()), c, now)
    {
      var t := c.t;
      match c {
        case Start(_, at) =>
          timers := timers[t := timers[t].(active := true)];
          var expiry := Add(at, timers[t].period);
          var expired := InsertTimerInActiveList(t, expiry, now, at);
          if expired {
            if timers[t].autoReload {
              ReloadTimer(t, expiry, now);
            } else {
              timers := timers[t := timers[t].(active := false)];
            }
            calls := calls + [t];
          }
        case Stop(_) =>
          timers := timers[t := timers[t].(active := false)];
        case ChangePeriod(_, period) =>
          timers := timers[t := timers[t].(active := true, period := period)];
          var _ := InsertTimerInActiveList(t, Add(now, period), now, now);
        case Delete(_) =>
          if timers[t].isStatic {
            timers := timers[t := timers[t].(active := false)];
          } else {
            timers := timers - {t};
          }
      }
    }

    method ProcessTimerOrBlockTask(now: Tick) returns (block: Option<Block>)
      requires Known(State())
      modifies this
      ensures (State(), block) == Round(old(State()), now)
    {
      var next, wasEmpty := HeadExpiry(State()), CurrentList(State()) == [];
      var switched := SampleTimeNow(now);
      block := None;
      if !switched {
        if !wasEmpty && next <= now {
          ProcessExpiredTimer(next, now);
        } else {
          var indefinitely := wasEmpty;
          if wasEmpty { indefinitely := OverflowList(State()) == []; }
          block := Some(Block(Sub(next, now), indefinitely));
        }
      }
    }
  }

  // ---------- The reload loop ----------

  /** What a reload makes of the state after an insertion. */
  function Reloaded(d: Daemon, again: bool, t: TimerId, next: Tick, now: Tick): Daemon {
    if again then Reload(Call(d, t), t, next, now) else d
  }

  lemma ReloadUnfolds(d: Daemon, t: TimerId, expired: Tick, now: Tick)
    requires t in d.timers
    ensures var next := Add(expired, d.timers[t].period);
            var (d1, again) := Insert(d, t, next, now, expired);
            && Reload(d, t, expired, now) == Reloaded(d1, again, t, next, now)
            && t in d1.timers && d1.timers[t].period == d.timers[t].period
            && (again ==> Sub(now, next) < Sub(now, expired))
  {}

  // ---------- The lists hold known timers ----------

  ghost predicate Known(d: Daemon) {
    && (forall t :: t in d.first ==> t in d.timers)
    && (forall t :: t in d.second ==> t in d.timers)
  }

  lemma LinkKnown(d: Daemon, place: Place, t: TimerId)
    requires Known(d)
    ensures Known(Link(d, place, t)) && forall u :: u in Link(d, place, t).timers <==> u in d.timers || u == t
  {}

  lemma InsertKnown(d: Daemon, t: TimerId, expiry: Tick, now: Tick, commandTime: Tick)
    requires Known(d)
    ensures var d' := Insert(d, t, expiry, now, commandTime).0;
            Known(d') && forall u :: u in d'.timers <==> u in d.timers || u == t
  {
    var d1, d' := Put(d, t, Get(d, t).(expiry := expiry)), Insert(d, t, expiry, now, commandTime).0;
    PutKnown(d, t, Get(d, t).(expiry := expiry));
    if d' == Link(d1, OverflowPlace(d1), t) {
      LinkKnown(d1, OverflowPlace(d1), t);
    } else if d' == Link(d1, CurrentPlace(d1), t) {
      LinkKnown(d1, CurrentPlace(d1), t);
    } else {
      assert d' == d1;
    }
  }

  lemma PutKnown(d: Daemon, t: TimerId, timer: Timer)
    requires Known(d)
    ensures Known(Put(d, t, timer)) && forall u :: u in Put(d, t, timer).timers <==> u in d.timers || u == t
  {}

  lemma {:induction false} ReloadKnown(d: Daemon, t: TimerId, expired: Tick, now: Tick)
    requires Known(d) && t in d.timers
    ensures Known(Reload(d, t, expired, now)) && forall u :: u in Reload(d, t, expired, now).timers <==> u in d.timers
    decreases Sub(now, expired)
  {
    var next := Add(expired, Get(d, t).period);
    var (d1, again) := Insert(d, t, next, now, expired);
    InsertKnown(d, t, next, now, expired);
    if again { ReloadKnown(Call(d1, t), t, next, now); }
  }

  lemma ProcessExpiredKnown(d: Daemon, nextExpiry: Tick, now: Tick)
    requires Known(d) && CurrentList(d) != []
    ensures Known(ProcessExpired(d, nextExpiry, now)) && forall u :: u in ProcessExpired(d, nextExpiry, now).timers <==> u in d.timers
  {
    var t := CurrentList(d)[0];
    var d1 := Put(SetList(d, CurrentPlace(d), CurrentList(d)[1..]), t, Get(d, t).(place := Nowhere));
    assert t in CurrentList(d);
    ReloadKnown(d1, t, nextExpiry, now);
  }

  lemma {:induction false} SwitchKnown(d: Daemon)
    requires Known(d)
    ensures Known(SwitchLists(d)) && forall u :: u in SwitchLists(d).timers <==> u in d.timers
    decreases |CurrentList(d)|
  {
    if CurrentList(d) != [] {
      ProcessExpiredKnown(d, HeadExpiry(d), MAX_DELAY);
      SwitchKnown(ProcessExpired(d, HeadExpiry(d), MAX_DELAY));
    }
  }

  lemma SampleKnown(d: Daemon, now: Tick)
    requires Known(d)
    ensures Known(Sample(d, now).0) && forall u :: u in Sample(d, now).0.timers <==> u in d.timers
  {
    SwitchKnown(d);
  }

  lemma UnlinkKnown(d: Daemon, t: TimerId)
    requires Known(d) && t in d.timers
    ensures Known(Unlink(d, t)) && forall u :: u in Unlink(d, t).timers <==> u in d.timers
  {}
}
