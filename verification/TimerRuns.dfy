/**
 Timers against an unbounded clock: the daemon runs each callback once per expiry that has
 elapsed, over any sequence of commands and checks whose time samples are less than one wrap
 of the tick count apart.
 */
module TimerRuns {
  import opened Word32
  import opened Wrappers
  import opened ListView
  import opened Timers

  // ---------- Unbounded times ----------

  /** A time as the daemon sees it: the tick count, and the wraps that came before. */
  datatype Moment = Moment(epoch: nat, tick: Tick)

  function Time(m: Moment): nat {
    m.epoch * WRAP + m.tick
  }

  function MomentOf(time: nat): (m: Moment)
    ensures Time(m) == time
  {
    Moment(Epoch(time), Low(time))
  }

  function Later(m: Moment, ticks: Tick): (m': Moment)
    ensures Time(m') == Time(m) + ticks
  {
    Moment(if m.tick + ticks < WRAP then m.epoch else m.epoch + 1, Add(m.tick, ticks))
  }

  /** The k-th expiry counted from `x`, for period `p`. */
  function Nth(x: nat, p: nat, k: nat): nat
    decreases k
  {
    if k == 0 then x else Nth(x + p, p, k - 1)
  }

  lemma {:induction false} NthIsProduct(x: nat, p: nat, k: nat)
    ensures Nth(x, p, k) == x + k * p
    decreases k
  {
    if k > 0 { NthIsProduct(x + p, p, k - 1); }
  }

  lemma {:induction false} NthNext(x: nat, p: nat, k: nat)
    ensures Nth(x, p, k + 1) == Nth(x, p, k) + p
    decreases k
  {
    if k > 0 { NthNext(x + p, p, k - 1); }
  }

  lemma {:induction false} NthAdd(x: nat, p: nat, a: nat, b: nat)
    ensures Nth(Nth(x, p, a), p, b) == Nth(x, p, a + b)
    decreases a
  {
    if a > 0 { NthAdd(x + p, p, a - 1, b); }
  }

  lemma {:induction false} NthGrows(x: nat, p: nat, a: nat, b: nat)
    requires a <= b
    ensures Nth(x, p, a) <= Nth(x, p, b)
    decreases b
  {
    if a < b {
      NthNext(x, p, b - 1);
      NthGrows(x, p, a, b - 1);
    }
  }

  /** How many expiries after the one at `x` have elapsed, and the first one that has not. */
  function Backlog(x: nat, p: Period, now: nat): nat
    decreases now - x
  {
    if now < x + p then 0 else 1 + Backlog(x + p, p, now)
  }

  function NextAfter(x: nat, p: Period, now: nat): nat
    decreases now - x
  {
    if now < x + p then x + p else NextAfter(x + p, p, now)
  }

  lemma {:induction false} BacklogExact(x: nat, p: Period, now: nat)
    requires x <= now
    ensures var n := Backlog(x, p, now);
            NextAfter(x, p, now) == Nth(x, p, n + 1) && Nth(x, p, n) <= now < Nth(x, p, n + 1)
    decreases now - x
  {
    NthNext(x, p, 0);
    if x + p <= now { BacklogExact(x + p, p, now); }
  }

  // ---------- The lists ----------

  /** A list holds, in expiry order and once each, exactly the timers whose item says so. */
  ghost predicate Homed(d: Daemon, place: Place) {
    && NoDuplicates(At(d, place)) && Sorted(Expiries(d, At(d, place)))
    && forall t {:trigger Listed(d, place, t)} :: Listed(d, place, t)
  }

  predicate Listed(d: Daemon, place: Place, t: TimerId) {
    t in At(d, place) <==> t in d.timers && d.timers[t].place == place
  }

  ghost predicate ListsOk(d: Daemon) {
    Homed(d, First) && Homed(d, Second)
  }

  lemma SameExpiries(d: Daemon, d': Daemon, list: seq<TimerId>)
    requires forall t :: t in list ==> Get(d', t).expiry == Get(d, t).expiry
    ensures Expiries(d', list) == Expiries(d, list)
  {}

  lemma SameHome(d: Daemon, d': Daemon, place: Place)
    requires Homed(d, place) && At(d', place) == At(d, place)
    requires forall t :: (t in d'.timers && d'.timers[t].place == place) <==> (t in d.timers && d.timers[t].place == place)
    requires forall t :: t in At(d, place) ==> Get(d', t).expiry == Get(d, t).expiry
    ensures Homed(d', place)
  {
    SameExpiries(d, d', At(d, place));
    forall t ensures Listed(d', place, t) { assert Listed(d, place, t); }
  }

  /** Neither list nor any item in one changes. */
  lemma SameLists(d: Daemon, d': Daemon)
    requires ListsOk(d) && d'.first == d.first && d'.second == d.second && d'.timers == d.timers
    ensures ListsOk(d')
  {
    SameHome(d, d', First);
    SameHome(d, d', Second);
  }

  /** A timer that is in no list may change. */
  lemma LooseOk(d: Daemon, d': Daemon, t: TimerId)
    requires ListsOk(d) && Get(d, t).place == Nowhere && t in d'.timers && d'.timers[t].place == Nowhere
    requires d'.timers == d.timers[t := d'.timers[t]] && d'.first == d.first && d'.second == d.second
    ensures ListsOk(d')
  {
    assert Listed(d, First, t) && Listed(d, Second, t);
    SameHome(d, d', First);
    SameHome(d, d', Second);
  }

  lemma LinkedExpiries(d: Daemon, d': Daemon, list: seq<TimerId>, t: TimerId, k: nat)
    requires k <= |list|
    requires Get(d', t).expiry == Get(d, t).expiry && forall u :: u in list ==> Get(d', u).expiry == Get(d, u).expiry
    ensures Expiries(d', InsertAt(list, k, t)) == InsertAt(Expiries(d, list), k, Get(d, t).expiry)
  {
    var more := InsertAt(list, k, t);
    forall i | 0 <= i < |more|
      ensures Expiries(d', more)[i] == InsertAt(Expiries(d, list), k, Get(d, t).expiry)[i]
    {
      assert more[i] == if i < k then list[i] else if i == k then t else list[i - 1];
    }
  }

  lemma LinkHome(d: Daemon, place: Place, t: TimerId)
    requires Homed(d, place) && t in d.timers && d.timers[t].place == Nowhere && place != Nowhere
    ensures Homed(Link(d, place, t), place)
  {
    var list, d' := At(d, place), Link(d, place, t);
    var k := FirstGreater(Expiries(d, list), Get(d, t).expiry);
    assert Listed(d, place, t);
    InsertFacts(list, k, t);
    SortedInsert(Expiries(d, list), Get(d, t).expiry);
    LinkedExpiries(d, d', list, t, k);
    forall u ensures Listed(d', place, u) { assert Listed(d, place, u); }
  }

  lemma LinkOk(d: Daemon, place: Place, t: TimerId)
    requires ListsOk(d) && t in d.timers && d.timers[t].place == Nowhere && place != Nowhere
    ensures ListsOk(Link(d, place, t))
  {
    var other := if place == First then Second else First;
    LinkHome(d, place, t);
    assert Listed(d, other, t);
    SameHome(d, Link(d, place, t), other);
  }

  lemma WithoutExpiries(d: Daemon, d': Daemon, list: seq<TimerId>, k: nat)
    requires k < |list| && forall u :: u in list ==> Get(d', u).expiry == Get(d, u).expiry
    ensures Expiries(d', Without(list, k)) == Without(Expiries(d, list), k)
  {
    var rest := Without(list, k);
    forall i | 0 <= i < |rest| ensures Expiries(d', rest)[i] == Without(Expiries(d, list), k)[i] {
      assert rest[i] == list[if i < k then i else i + 1];
    }
  }

  lemma LeaveHome(d: Daemon, d': Daemon, place: Place, k: nat)
    requires Homed(d, place) && place != Nowhere && k < |At(d, place)| && At(d', place) == Without(At(d, place), k)
    requires var t := At(d, place)[k];
             && t in d'.timers && d'.timers == d.timers[t := d'.timers[t]]
             && d'.timers[t].place == Nowhere && d'.timers[t].expiry == Get(d, t).expiry
    ensures Homed(d', place)
  {
    var list := At(d, place);
    WithoutFacts(list, k);
    SortedWithout(Expiries(d, list), k);
    WithoutExpiries(d, d', list, k);
    forall u ensures Listed(d', place, u) { assert Listed(d, place, u); }
  }

  /** The k-th item of a list leaves it. */
  lemma LeaveOk(d: Daemon, d': Daemon, place: Place, k: nat)
    requires ListsOk(d) && place != Nowhere && k < |At(d, place)|
    requires var t := At(d, place)[k];
             && t in d'.timers && d'.timers == d.timers[t := d'.timers[t]]
             && d'.timers[t].place == Nowhere && d'.timers[t].expiry == Get(d, t).expiry
    requires d'.first == (if place == First then Without(d.first, k) else d.first)
    requires d'.second == (if place == Second then Without(d.second, k) else d.second)
    ensures ListsOk(d')
  {
    var t, other := At(d, place)[k], if place == First then Second else First;
    LeaveHome(d, d', place, k);
    assert Listed(d, place, t) && Listed(d, other, t);
    SameHome(d, d', other);
  }

  lemma UnlinkOk(d: Daemon, t: TimerId)
    requires ListsOk(d) && t in d.timers
    ensures ListsOk(Unlink(d, t))
  {
    var place := d.timers[t].place;
    if place == Nowhere {
      LooseOk(d, Unlink(d, t), t);
    } else {
      assert Listed(d, place, t);
      LeaveOk(d, Unlink(d, t), place, IndexOf(At(d, place), t));
    }
  }

  function WithoutHead(d: Daemon): Daemon
    requires CurrentList(d) != []
  {
    var t := CurrentList(d)[0];
    Put(SetList(d, CurrentPlace(d), CurrentList(d)[1..]), t, Get(d, t).(place := Nowhere))
  }

  lemma HeadKnown(d: Daemon)
    requires ListsOk(d) && CurrentList(d) != []
    ensures var t := CurrentList(d)[0]; t in d.timers && d.timers[t].place == CurrentPlace(d)
  {
    assert Listed(d, CurrentPlace(d), CurrentList(d)[0]);
  }

  lemma WithoutHeadOk(d: Daemon)
    requires ListsOk(d) && CurrentList(d) != []
    ensures ListsOk(WithoutHead(d))
  {
    HeadKnown(d);
    assert CurrentList(d)[1..] == Without(CurrentList(d), 0);
    LeaveOk(d, WithoutHead(d), CurrentPlace(d), 0);
  }

  // ---------- One insertion ----------

  /** Only timer `t` differs; its item may be elsewhere and have another value. */
  ghost predicate OnlyItem(d: Daemon, d': Daemon, t: TimerId) {
    && t in d.timers && t in d'.timers && d'.timers == d.timers[t := d'.timers[t]]
    && d'.timers[t] == d.timers[t].(expiry := d'.timers[t].expiry, place := d'.timers[t].place)
    && d'.firstIsCurrent == d.firstIsCurrent && d'.lastTime == d.lastTime
  }

  /** The unbounded time that an item in one of the lists stands for, in epoch `e`. */
  function Due(d: Daemon, e: nat, t: TimerId): Option<nat> {
    if Get(d, t).place == Nowhere then None
    else Some(Time(Moment(if Get(d, t).place == CurrentPlace(d) then e else e + 1, Get(d, t).expiry)))
  }

  /** Where an insertion puts the item; `Nowhere` if it reports the timer expired. */
  function WhereTo(d: Daemon, period: Period, expiry: Tick, now: Tick, commandTime: Tick): Place {
    if expiry <= now then if Sub(now, commandTime) >= period then Nowhere else OverflowPlace(d)
    else if now < commandTime && expiry >= commandTime then Nowhere
    else CurrentPlace(d)
  }

  lemma PutTwice(timers: map<TimerId, Timer>, t: TimerId, a: Timer, b: Timer)
    ensures timers[t := a][t := b] == timers[t := b]
  {}

  lemma InsertEffect(d: Daemon, t: TimerId, expiry: Tick, now: Tick, commandTime: Tick)
    requires t in d.timers && d.timers[t].place == Nowhere
    ensures var (d', expired) := Insert(d, t, expiry, now, commandTime);
            var place := WhereTo(d, d.timers[t].period, expiry, now, commandTime);
            && OnlyItem(d, d', t) && d'.calls == d.calls
            && d'.timers[t].expiry == expiry && d'.timers[t].place == place && (expired <==> place == Nowhere)
  {
    var place := WhereTo(d, d.timers[t].period, expiry, now, commandTime);
    var timer := d.timers[t].(expiry := expiry);
    PutTwice(d.timers, t, timer, timer.(place := place));
  }

  lemma InsertOk(d: Daemon, t: TimerId, expiry: Tick, now: Tick, commandTime: Tick)
    requires ListsOk(d) && t in d.timers && d.timers[t].place == Nowhere
    ensures ListsOk(Insert(d, t, expiry, now, commandTime).0)
  {
    var d1 := Put(d, t, Get(d, t).(expiry := expiry));
    var place := WhereTo(d, d.timers[t].period, expiry, now, commandTime);
    LooseOk(d, d1, t);
    if place != Nowhere { LinkOk(d1, place, t); }
  }

  /** The comparisons on words decide the question about unbounded times. */
  lemma WhereExact(d: Daemon, period: Period, issued: Moment, now: Moment)
    requires Time(issued) <= Time(now) < Time(issued) + WRAP
    ensures var expiry := Later(issued, period);
            var place := WhereTo(d, period, expiry.tick, now.tick, issued.tick);
            if Time(expiry) <= Time(now) then place == Nowhere
            else if expiry.epoch == now.epoch then place == CurrentPlace(d)
            else place == OverflowPlace(d) && expiry.epoch == now.epoch + 1
  {}

  /**
   A timer whose start was issued at `issued` and is handled at `now`: the insertion reports it
   expired exactly if its unbounded expiry time is not after `now`, and else files it under
   exactly that time.
   */
  lemma InsertExact(d: Daemon, t: TimerId, issued: Moment, now: Moment)
    requires t in d.timers && d.timers[t].place == Nowhere
    requires Time(issued) <= Time(now) < Time(issued) + WRAP
    ensures var expiry := Later(issued, d.timers[t].period);
            var (d', expired) := Insert(d, t, expiry.tick, now.tick, issued.tick);
            && (expired <==> Time(expiry) <= Time(now))
            && OnlyItem(d, d', t) && d'.calls == d.calls
            && (expired ==> d'.timers[t].place == Nowhere)
            && Due(d', now.epoch, t) == (if expired then None else Some(Time(expiry)))
  {
    var expiry := Later(issued, d.timers[t].period);
    InsertEffect(d, t, expiry.tick, now.tick, issued.tick);
    WhereExact(d, d.timers[t].period, issued, now);
  }

  /** Reloading catches up: one callback for every further expiry that has elapsed, no more. */
  lemma {:induction false} ReloadExact(d: Daemon, t: TimerId, expired: Moment, now: Moment)
    requires t in d.timers && d.timers[t].place == Nowhere
    requires Time(expired) <= Time(now) < Time(expired) + WRAP
    ensures var d', p := Reload(d, t, expired.tick, now.tick), d.timers[t].period;
            && OnlyItem(d, d', t)
            && d'.calls == d.calls + Copies(t, Backlog(Time(expired), p, Time(now)))
            && Due(d', now.epoch, t) == Some(NextAfter(Time(expired), p, Time(now)))
    decreases Time(now) - Time(expired)
  {
    var p := d.timers[t].period;
    var next := Later(expired, p);
    InsertExact(d, t, expired, now);
    var (d1, again) := Insert(d, t, next.tick, now.tick, expired.tick);
    assert Reload(d, t, expired.tick, now.tick) == if again then Reload(Call(d1, t), t, next.tick, now.tick) else d1;
    if again {
      ReloadExact(Call(d1, t), t, next, now);
      CopiesMore(d.calls, t, Backlog(Time(next), p, Time(now)));
      assert Backlog(Time(expired), p, Time(now)) == 1 + Backlog(Time(next), p, Time(now));
    } else {
      assert Backlog(Time(expired), p, Time(now)) == 0;
      CopiesNone(d.calls, t);
    }
  }

  lemma {:induction false} ReloadOk(d: Daemon, t: TimerId, expired: Tick, now: Tick)
    requires ListsOk(d) && t in d.timers && d.timers[t].place == Nowhere
    ensures ListsOk(Reload(d, t, expired, now))
    decreases Sub(now, expired)
  {
    var next := Add(expired, d.timers[t].period);
    var (d1, again) := Insert(d, t, next, now, expired);
    InsertOk(d, t, next, now, expired);
    InsertEffect(d, t, next, now, expired);
    if again {
      SameLists(d1, Call(d1, t));
      ReloadOk(Call(d1, t), t, next, now);
    }
  }

  // ---------- What timers do over time ----------

  predicate ActiveOk(timer: Timer) {
    timer.active <==> timer.place != Nowhere
  }

  /**
   A timer due at `due` was called back `calls` times, each time for the next of its expiries,
   all of them elapsed at `now`, and is then due at `due'`.
   */
  predicate Accounts(timer: Timer, due: Option<nat>, due': Option<nat>, calls: nat, now: nat) {
    if due.None? then due'.None? && calls == 0
    else if calls == 0 then due' == due
    else if timer.autoReload then
      due' == Some(Nth(due.value, timer.period, calls)) && Nth(due.value, timer.period, calls - 1) <= now
    else due'.None? && calls == 1 && due.value <= now
  }

  lemma AccountsTrans(timer: Timer, due: Option<nat>, due1: Option<nat>, due2: Option<nat>, a: nat, b: nat, now1: nat, now2: nat)
    requires Accounts(timer, due, due1, a, now1) && Accounts(timer, due1, due2, b, now2) && now1 <= now2
    ensures Accounts(timer, due, due2, a + b, now2)
  {
    if due.Some? && timer.autoReload && a > 0 && b > 0 {
      NthAdd(due.value, timer.period, a, b);
      NthAdd(due.value, timer.period, a, b - 1);
    }
  }

  function CallsOf(d: Daemon, t: TimerId): nat {
    multiset(d.calls)[t]
  }

  function Copies(t: TimerId, n: nat): (c: seq<TimerId>)
    ensures |c| == n && forall i :: 0 <= i < n ==> c[i] == t
  {
    seq(n, i => t)
  }

  lemma CopiesMore(calls: seq<TimerId>, t: TimerId, n: nat)
    ensures calls + [t] + Copies(t, n) == calls + Copies(t, n + 1)
    ensures calls + Copies(t, n) + [t] == calls + Copies(t, n + 1)
  {}

  lemma CopiesNone(calls: seq<TimerId>, t: TimerId)
    ensures calls + Copies(t, 0) == calls
    ensures Copies(t, 1) == [t]
  {}

  lemma {:induction false} CopiesCount(t: TimerId, n: nat, u: TimerId)
    ensures multiset(Copies(t, n))[u] == if u == t then n else 0
  {
    if n > 0 {
      CopiesCount(t, n - 1, u);
      assert Copies(t, n) == Copies(t, n - 1) + [t];
    }
  }

  lemma CallsGrow(d: Daemon, d': Daemon, t: TimerId, n: nat)
    requires d'.calls == d.calls + Copies(t, n)
    ensures forall u :: CallsOf(d', u) == CallsOf(d, u) + if u == t then n else 0
  {
    forall u ensures CallsOf(d', u) == CallsOf(d, u) + if u == t then n else 0 {
      CopiesCount(t, n, u);
    }
  }

  predicate SameKind(a: Timer, b: Timer) {
    a.period == b.period && a.autoReload == b.autoReload && a.isStatic == b.isStatic
  }

  /** From `d` in epoch `e` to `d'` in epoch `e'`, timer `t` did what its expiries up to `now` allow. */
  ghost predicate Moves(d: Daemon, e: nat, d': Daemon, e': nat, t: TimerId, now: nat) {
    && t in d.timers && t in d'.timers && SameKind(d.timers[t], d'.timers[t])
    && (ActiveOk(d.timers[t]) ==> ActiveOk(d'.timers[t]))
    && CallsOf(d, t) <= CallsOf(d', t)
    && Accounts(d.timers[t], Due(d, e, t), Due(d', e', t), CallsOf(d', t) - CallsOf(d, t), now)
  }

  ghost predicate AllMove(d: Daemon, e: nat, d': Daemon, e': nat, now: nat) {
    forall t {:trigger Moves(d, e, d', e', t, now)} :: t in d.timers || t in d'.timers ==> Moves(d, e, d', e', t, now)
  }

  lemma SameTimers(d: Daemon, e: nat, d': Daemon, e': nat, now: nat)
    requires AllMove(d, e, d', e', now)
    ensures forall t :: t in d'.timers <==> t in d.timers
  {
    forall t ensures t in d'.timers <==> t in d.timers {
      assert t in d.timers || t in d'.timers ==> Moves(d, e, d', e', t, now);
    }
  }

  lemma MovesTrans(d: Daemon, e: nat, d1: Daemon, e1: nat, d2: Daemon, e2: nat, t: TimerId, now1: nat, now2: nat)
    requires Moves(d, e, d1, e1, t, now1) && Moves(d1, e1, d2, e2, t, now2) && now1 <= now2
    ensures Moves(d, e, d2, e2, t, now2)
  {
    var timer, due1, due2 := d1.timers[t], Due(d1, e1, t), Due(d2, e2, t);
    var a, b := CallsOf(d1, t) - CallsOf(d, t), CallsOf(d2, t) - CallsOf(d1, t);
    assert Accounts(d.timers[t], due1, due2, b, now2);
    AccountsTrans(d.timers[t], Due(d, e, t), due1, due2, a, b, now1, now2);
  }

  lemma AllMoveTrans(d: Daemon, e: nat, d1: Daemon, e1: nat, d2: Daemon, e2: nat, now1: nat, now2: nat)
    requires AllMove(d, e, d1, e1, now1) && AllMove(d1, e1, d2, e2, now2) && now1 <= now2
    ensures AllMove(d, e, d2, e2, now2)
  {
    SameTimers(d, e, d1, e1, now1);
    SameTimers(d1, e1, d2, e2, now2);
    forall t | t in d.timers || t in d2.timers ensures Moves(d, e, d2, e2, t, now2) {
      assert Moves(d, e, d1, e1, t, now1) && Moves(d1, e1, d2, e2, t, now2);
      MovesTrans(d, e, d1, e1, d2, e2, t, now1, now2);
    }
  }

  /** Only `t` changed, and was called back: the others did nothing. */
  lemma OthersMove(d: Daemon, d': Daemon, e: nat, t: TimerId, n: nat, now: nat)
    requires t in d.timers && t in d'.timers && d'.timers == d.timers[t := d'.timers[t]] && d'.firstIsCurrent == d.firstIsCurrent
    requires d'.calls == d.calls + Copies(t, n)
    ensures forall u :: u in d.timers && u != t ==> Moves(d, e, d', e, u, now)
    ensures forall u :: u in d'.timers <==> u in d.timers
    ensures CallsOf(d', t) == CallsOf(d, t) + n
  {
    CallsGrow(d, d', t, n);
  }

  /** Nothing that timers are judged by changed. */
  lemma NobodyMoves(d: Daemon, d': Daemon, e: nat, now: nat)
    requires d'.timers == d.timers && d'.firstIsCurrent == d.firstIsCurrent && d'.calls == d.calls
    ensures AllMove(d, e, d', e, now)
  {}

  // ---------- An expired timer ----------

  lemma ProcessExpiredEffect(d: Daemon, now: Moment)
    requires CurrentList(d) != [] && HeadExpiry(d) <= now.tick
    requires var t := CurrentList(d)[0]; t in d.timers && d.timers[t].place == CurrentPlace(d)
    ensures var d', t, x := ProcessExpired(d, HeadExpiry(d), now.tick), CurrentList(d)[0], Time(Moment(now.epoch, HeadExpiry(d)));
            && t in d'.timers && d'.timers == d.timers[t := d'.timers[t]] && SameKind(d.timers[t], d'.timers[t])
            && (if d.timers[t].autoReload then
                  && d'.timers[t].active == d.timers[t].active
                  && d'.calls == d.calls + Copies(t, Backlog(x, d.timers[t].period, Time(now)) + 1)
                  && Due(d', now.epoch, t) == Some(NextAfter(x, d.timers[t].period, Time(now)))
                else !d'.timers[t].active && d'.timers[t].place == Nowhere && d'.calls == d.calls + Copies(t, 1))
  {
    var t, d1 := CurrentList(d)[0], WithoutHead(d);
    var d' := ProcessExpired(d, HeadExpiry(d), now.tick);
    PutTwice(d.timers, t, d1.timers[t], Get(d', t));
    if d.timers[t].autoReload {
      var expired := Moment(now.epoch, HeadExpiry(d));
      ReloadExact(d1, t, expired, now);
      CopiesMore(d.calls, t, Backlog(Time(expired), d.timers[t].period, Time(now)));
    } else {
      CopiesNone(d.calls, t);
    }
  }

  lemma ProcessExpiredOk(d: Daemon, now: Tick)
    requires ListsOk(d) && CurrentList(d) != []
    ensures ListsOk(ProcessExpired(d, HeadExpiry(d), now))
  {
    var t, d1, d' := CurrentList(d)[0], WithoutHead(d), ProcessExpired(d, HeadExpiry(d), now);
    HeadKnown(d);
    WithoutHeadOk(d);
    if d.timers[t].autoReload {
      ReloadOk(d1, t, HeadExpiry(d), now);
      SameLists(Reload(d1, t, HeadExpiry(d), now), d');
    } else {
      LooseOk(d1, d', t);
    }
  }

  /** The head, processed up to `now`: its elapsed expiries are called back, all of them. */
  lemma ProcessExpiredExact(d: Daemon, now: Moment)
    requires CurrentList(d) != [] && HeadExpiry(d) <= now.tick
    requires var t := CurrentList(d)[0]; t in d.timers && d.timers[t].place == CurrentPlace(d)
    ensures var d', t, e := ProcessExpired(d, HeadExpiry(d), now.tick), CurrentList(d)[0], now.epoch;
            && AllMove(d, e, d', e, Time(now))
            && CallsOf(d, t) < CallsOf(d', t) && (Due(d', e, t).Some? ==> Time(now) < Due(d', e, t).value)
  {
    var d', t, e := ProcessExpired(d, HeadExpiry(d), now.tick), CurrentList(d)[0], now.epoch;
    ProcessExpiredEffect(d, now);
    var timer, x := d.timers[t], Time(Moment(e, HeadExpiry(d)));
    var n := if timer.autoReload then Backlog(x, timer.period, Time(now)) + 1 else 1;
    BacklogExact(x, timer.period, Time(now));
    OthersMove(d, d', e, t, n, Time(now));
    assert Due(d, e, t) == Some(x) && Accounts(timer, Some(x), Due(d', e, t), n, Time(now));
  }

  // ---------- Sampling the time ----------

  /** With the current list empty, exchanging the lists moves on to the next epoch. */
  lemma FlipMoves(d: Daemon, e: nat, now: nat)
    requires ListsOk(d) && CurrentList(d) == []
    ensures var d' := d.(firstIsCurrent := !d.firstIsCurrent);
            ListsOk(d') && AllMove(d, e, d', e + 1, now)
  {
    var d' := d.(firstIsCurrent := !d.firstIsCurrent);
    SameLists(d, d');
    forall t | t in d.timers ensures Moves(d, e, d', e + 1, t, now) {
      assert Listed(d, CurrentPlace(d), t);
    }
  }

  lemma {:induction false} SwitchOk(d: Daemon)
    requires ListsOk(d)
    ensures ListsOk(SwitchLists(d))
    decreases |CurrentList(d)|
  {
    if CurrentList(d) == [] {
      SameLists(d, SwitchLists(d));
    } else {
      ProcessExpiredOk(d, MAX_DELAY);
      SwitchOk(ProcessExpired(d, HeadExpiry(d), MAX_DELAY));
    }
  }

  /** The lists change places: everything due before the wrap has been called back first. */
  lemma {:induction false} SwitchExact(d: Daemon, e: nat)
    requires ListsOk(d)
    ensures AllMove(d, e, SwitchLists(d), e + 1, Time(Moment(e, MAX_DELAY)))
    decreases |CurrentList(d)|
  {
    var end := Moment(e, MAX_DELAY);
    if CurrentList(d) == [] {
      FlipMoves(d, e, Time(end));
    } else {
      var d1 := ProcessExpired(d, HeadExpiry(d), MAX_DELAY);
      HeadKnown(d);
      ProcessExpiredExact(d, end);
      ProcessExpiredOk(d, MAX_DELAY);
      SwitchExact(d1, e);
      AllMoveTrans(d, e, d1, e, SwitchLists(d1), e + 1, Time(end), Time(end));
    }
  }

  /** Samples less than a wrap apart: the lists are switched exactly if an epoch has ended. */
  lemma SampleExact(d: Daemon, last: Moment, now: Moment)
    requires ListsOk(d) && d.lastTime == last.tick && Time(last) <= Time(now) < Time(last) + WRAP
    ensures var (d', switched) := Sample(d, now.tick);
            && now.epoch == (if switched then last.epoch + 1 else last.epoch)
            && ListsOk(d') && d'.lastTime == now.tick && AllMove(d, last.epoch, d', now.epoch, Time(now))
            && (!switched ==> d' == d.(lastTime := now.tick))
  {
    var (d', switched) := Sample(d, now.tick);
    if switched {
      var d1 := SwitchLists(d);
      SwitchOk(d);
      SwitchExact(d, last.epoch);
      SameLists(d1, d');
      NobodyMoves(d1, d', now.epoch, Time(now));
      AllMoveTrans(d, last.epoch, d1, now.epoch, d', now.epoch, Time(Moment(last.epoch, MAX_DELAY)), Time(now));
    } else {
      SameLists(d, d');
      NobodyMoves(d, d', now.epoch, Time(now));
    }
  }

  // ---------- The daemon's two steps ----------

  /** `last` is the time of the last sample. */
  ghost predicate Inv(d: Daemon, last: Moment) {
    && ListsOk(d) && d.lastTime == last.tick
    && forall t :: t in d.timers ==> ActiveOk(d.timers[t])
  }

  lemma AllActiveOk(d: Daemon, e: nat, d': Daemon, e': nat, now: nat)
    requires AllMove(d, e, d', e', now) && forall t :: t in d.timers ==> ActiveOk(d.timers[t])
    ensures forall t :: t in d'.timers ==> ActiveOk(d'.timers[t])
  {
    forall t | t in d'.timers ensures ActiveOk(d'.timers[t]) {
      assert Moves(d, e, d', e', t, now);
    }
  }

  /** The daemon found nothing left to do at `now`. */
  ghost predicate CaughtUp(d: Daemon, now: Moment) {
    forall t :: t in d.timers && Due(d, now.epoch, t).Some? ==> Time(now) < Due(d, now.epoch, t).value
  }

  /**
   It blocks until the first timer is due. With none in the current list it blocks until the tick
   count wraps, not at all if it has just wrapped, and without limit if no timer is active.
   */
  predicate BlockOk(d: Daemon, now: Moment, block: Block) {
    if CurrentList(d) != [] then
      !block.indefinitely && Time(now) + block.ticks == Time(Moment(now.epoch, HeadExpiry(d)))
    else
      && (block.indefinitely <==> OverflowList(d) == [])
      && (if now.tick == 0 then block.ticks == 0 else Time(now) + block.ticks == Time(Moment(now.epoch + 1, 0)))
  }

  lemma NothingDue(d: Daemon, now: Moment)
    requires ListsOk(d) && (CurrentList(d) == [] || now.tick < HeadExpiry(d))
    ensures CaughtUp(d, now)
  {
    forall t | t in d.timers && Due(d, now.epoch, t).Some? ensures Time(now) < Due(d, now.epoch, t).value {
      assert Listed(d, d.timers[t].place, t);
      if d.timers[t].place == CurrentPlace(d) {
        var list := CurrentList(d);
        var k :| 0 <= k < |list| && list[k] == t;
        assert Expiries(d, list)[0] <= Expiries(d, list)[k];
      }
    }
  }

  /**
   One look at the lists: every timer moves on only through expiries that have elapsed, and the
   daemon blocks only when no active timer is due.
   */
  lemma RoundExact(d: Daemon, last: Moment, now: Moment)
    requires Inv(d, last) && Time(last) <= Time(now) < Time(last) + WRAP
    ensures var (d', block) := Round(d, now.tick);
            && Inv(d', now) && AllMove(d, last.epoch, d', now.epoch, Time(now))
            && (block.Some? ==> CaughtUp(d', now) && BlockOk(d', now, block.value))
  {
    var (d1, switched) := Sample(d, now.tick);
    var d' := Round(d, now.tick).0;
    SampleExact(d, last, now);
    if !switched {
      if CurrentList(d) != [] && HeadExpiry(d) <= now.tick {
        HeadKnown(d1);
        ProcessExpiredOk(d1, now.tick);
        ProcessExpiredExact(d1, now);
        AllMoveTrans(d, last.epoch, d1, now.epoch, d', now.epoch, Time(now), Time(now));
      } else {
        NothingDue(d1, now);
      }
    }
    AllActiveOk(d, last.epoch, d', now.epoch, Time(now));
  }

  /** All timers but `t` are as they should be, and `t` is in no list. */
  ghost predicate Detached(d: Daemon, last: Moment, d1: Daemon, now: Moment, t: TimerId) {
    && ListsOk(d1) && d1.lastTime == now.tick && t in d.timers && t in d1.timers
    && d1.timers[t].place == Nowhere && SameKind(d.timers[t], d1.timers[t]) && CallsOf(d1, t) == CallsOf(d, t)
    && OthersDone(d, last, d1, now, t)
  }

  ghost predicate OthersDone(d: Daemon, last: Moment, d1: Daemon, now: Moment, t: TimerId) {
    forall u {:trigger Moves(d, last.epoch, d1, now.epoch, u, Time(now))} ::
      u != t && (u in d.timers || u in d1.timers) ==> Moves(d, last.epoch, d1, now.epoch, u, Time(now)) && ActiveOk(d1.timers[u])
  }

  lemma UnlinkFacts(d: Daemon, t: TimerId)
    requires t in d.timers
    ensures var d' := Unlink(d, t);
            && d'.timers == d.timers[t := d.timers[t].(place := Nowhere)]
            && d'.lastTime == d.lastTime && d'.calls == d.calls && d'.firstIsCurrent == d.firstIsCurrent
  {}

  lemma UnlinkMoves(d: Daemon, e: nat, t: TimerId, now: nat)
    requires t in d.timers
    ensures forall u :: u in d.timers && u != t ==> Moves(d, e, Unlink(d, t), e, u, now)
    ensures Unlink(d, t).timers == d.timers[t := d.timers[t].(place := Nowhere)]
    ensures Unlink(d, t).lastTime == d.lastTime && CallsOf(Unlink(d, t), t) == CallsOf(d, t)
  {
    UnlinkFacts(d, t);
    forall u | u in d.timers && u != t ensures Moves(d, e, Unlink(d, t), e, u, now) {
      SameTimerMoves(d, Unlink(d, t), e, u, now);
    }
  }

  lemma SameTimerMoves(d: Daemon, d': Daemon, e: nat, u: TimerId, now: nat)
    requires u in d.timers && u in d'.timers && d'.timers[u] == d.timers[u] && d'.calls == d.calls
    requires d'.firstIsCurrent == d.firstIsCurrent
    ensures Moves(d, e, d', e, u, now)
  {}

  lemma UnlinkOnlyListed(d: Daemon, t: TimerId)
    requires t in d.timers && d.timers[t].place == Nowhere
    ensures Unlink(d, t) == d
  {
    assert d.timers[t := d.timers[t]] == d.timers;
  }

  /** The named timer is out of its list and the time is sampled: the other timers move on. */
  lemma DetachSample(d: Daemon, last: Moment, t: TimerId, now: Moment)
    requires Inv(d, last) && t in d.timers && Time(last) <= Time(now) < Time(last) + WRAP
    ensures Detached(d, last, Sample(if Get(d, t).place != Nowhere then Unlink(d, t) else d, now.tick).0, now, t)
  {
    var d0 := Unlink(d, t);
    var d1 := Sample(d0, now.tick).0;
    if d.timers[t].place == Nowhere { UnlinkOnlyListed(d, t); }
    UnlinkOk(d, t);
    UnlinkMoves(d, last.epoch, t, Time(now));
    SampleExact(d0, last, now);
    assert Moves(d0, last.epoch, d1, now.epoch, t, Time(now));
    forall u | u != t && (u in d.timers || u in d1.timers)
      ensures Moves(d, last.epoch, d1, now.epoch, u, Time(now)) && ActiveOk(d1.timers[u])
    {
      assert Moves(d0, last.epoch, d1, now.epoch, u, Time(now));
      MovesTrans(d, last.epoch, d0, last.epoch, d1, now.epoch, u, Time(now), Time(now));
    }
  }

  /** The part of a command that follows changes only the timer it names. */
  lemma Apply(d: Daemon, last: Moment, d1: Daemon, d': Daemon, now: Moment, t: TimerId, n: nat)
    requires Detached(d, last, d1, now, t) && ListsOk(d') && d'.lastTime == d1.lastTime && d'.firstIsCurrent == d1.firstIsCurrent
    requires t in d'.timers && d'.timers == d1.timers[t := d'.timers[t]] && d'.calls == d1.calls + Copies(t, n) && ActiveOk(d'.timers[t])
    ensures Inv(d', now) && CallsOf(d', t) == CallsOf(d, t) + n && OthersDone(d, last, d', now, t)
  {
    OthersMove(d1, d', now.epoch, t, n, Time(now));
    forall u | u != t && (u in d.timers || u in d'.timers)
      ensures Moves(d, last.epoch, d', now.epoch, u, Time(now)) && ActiveOk(d'.timers[u])
    {
      assert Moves(d, last.epoch, d1, now.epoch, u, Time(now));
      MovesTrans(d, last.epoch, d1, now.epoch, d', now.epoch, u, Time(now), Time(now));
    }
  }

  lemma StartedOk(d: Daemon, t: TimerId, at: Tick, now: Tick)
    requires ListsOk(d) && t in d.timers && d.timers[t].place == Nowhere
    ensures ListsOk(Started(d, t, at, now))
  {
    var d1, expiry := SetActive(d, t, true), Add(at, d.timers[t].period);
    var (d2, expired) := Insert(d1, t, expiry, now, at);
    LooseOk(d, d1, t);
    InsertOk(d1, t, expiry, now, at);
    InsertEffect(d1, t, expiry, now, at);
    if expired {
      if d.timers[t].autoReload {
        ReloadOk(d2, t, expiry, now);
        SameLists(Reload(d2, t, expiry, now), Started(d, t, at, now));
      } else {
        LooseOk(d2, Started(d, t, at, now), t);
      }
    }
  }

  lemma ExpiredAtOnceEffect(d: Daemon, t: TimerId, expiry: Moment, now: Moment)
    requires t in d.timers && d.timers[t].place == Nowhere && d.timers[t].active
    requires Time(expiry) <= Time(now) < Time(expiry) + WRAP
    ensures var d', x := ExpiredAtOnce(d, t, expiry.tick, now.tick), Time(expiry);
            && t in d'.timers && d'.timers == d.timers[t := d'.timers[t]] && SameKind(d.timers[t], d'.timers[t])
            && d'.firstIsCurrent == d.firstIsCurrent && d'.lastTime == d.lastTime && ActiveOk(d'.timers[t])
            && (if d.timers[t].autoReload then
                  && d'.calls == d.calls + Copies(t, Backlog(x, d.timers[t].period, Time(now)) + 1)
                  && Due(d', now.epoch, t) == Some(NextAfter(x, d.timers[t].period, Time(now)))
                else Due(d', now.epoch, t) == None && d'.calls == d.calls + Copies(t, 1))
  {
    var d' := ExpiredAtOnce(d, t, expiry.tick, now.tick);
    if d.timers[t].autoReload {
      ReloadExact(d, t, expiry, now);
      CopiesMore(d.calls, t, Backlog(Time(expiry), d.timers[t].period, Time(now)));
    } else {
      CopiesNone(d.calls, t);
    }
  }

  /** A late start: its elapsed expiries are called back and it is filed under the next one. */
  lemma StartExact(d: Daemon, t: TimerId, issued: Moment, now: Moment) returns (n: nat)
    requires t in d.timers && d.timers[t].place == Nowhere
    requires Time(issued) <= Time(now) < Time(issued) + WRAP
    ensures var d', timer := Started(d, t, issued.tick, now.tick), d.timers[t];
            && t in d'.timers && d'.timers == d.timers[t := d'.timers[t]] && d'.calls == d.calls + Copies(t, n)
            && d'.firstIsCurrent == d.firstIsCurrent && d'.lastTime == d.lastTime
            && SameKind(timer, d'.timers[t]) && ActiveOk(d'.timers[t])
            && Accounts(timer, Some(Time(issued) + timer.period), Due(d', now.epoch, t), n, Time(now))
            && (Due(d', now.epoch, t).Some? ==> Time(now) < Due(d', now.epoch, t).value)
  {
    var p, d1 := d.timers[t].period, SetActive(d, t, true);
    var expiry := Later(issued, p);
    InsertExact(d1, t, issued, now);
    var (d2, expired) := Insert(d1, t, expiry.tick, now.tick, issued.tick);
    PutTwice(d.timers, t, d1.timers[t], d2.timers[t]);
    if expired {
      ExpiredAtOnceEffect(d2, t, expiry, now);
      PutTwice(d.timers, t, d2.timers[t], ExpiredAtOnce(d2, t, expiry.tick, now.tick).timers[t]);
      BacklogExact(Time(expiry), p, Time(now));
      n := if d.timers[t].autoReload then Backlog(Time(expiry), p, Time(now)) + 1 else 1;
    } else {
      n := 0;
      CopiesNone(d.calls, t);
    }
  }

  lemma ChangeExact(d: Daemon, t: TimerId, period: Period, now: Moment)
    requires ListsOk(d) && t in d.timers && d.timers[t].place == Nowhere
    ensures var d' := Insert(Put(d, t, Get(d, t).(active := true, period := period)), t, Add(now.tick, period), now.tick, now.tick).0;
            && ListsOk(d') && t in d'.timers && d'.timers == d.timers[t := d'.timers[t]] && d'.calls == d.calls + Copies(t, 0)
            && d'.firstIsCurrent == d.firstIsCurrent && d'.lastTime == d.lastTime
            && ActiveOk(d'.timers[t]) && d'.timers[t].period == period && Due(d', now.epoch, t) == Some(Time(now) + period)
  {
    var d1 := Put(d, t, Get(d, t).(active := true, period := period));
    LooseOk(d, d1, t);
    InsertExact(d1, t, now, now);
    InsertOk(d1, t, Add(now.tick, period), now.tick, now.tick);
    PutTwice(d.timers, t, d1.timers[t], Insert(d1, t, Add(now.tick, period), now.tick, now.tick).0.timers[t]);
    CopiesNone(d.calls, t);
  }

  lemma ForgetOk(d: Daemon, t: TimerId)
    requires ListsOk(d) && t in d.timers && d.timers[t].place == Nowhere
    ensures ListsOk(d.(timers := d.timers - {t}))
  {
    assert Listed(d, First, t) && Listed(d, Second, t);
    SameHome(d, d.(timers := d.timers - {t}), First);
    SameHome(d, d.(timers := d.timers - {t}), Second);
  }

  /** What a command means for the timer it names; `issued` is when a start was asked for. */
  ghost predicate Obeys(d: Daemon, d': Daemon, c: Command, issued: Moment, now: Moment) {
    if c.Delete? && !Get(d, c.t).isStatic then c.t !in d'.timers else ObeysKept(d, d', c, issued, now)
  }

  ghost predicate ObeysKept(d: Daemon, d': Daemon, c: Command, issued: Moment, now: Moment) {
    && c.t in d.timers && c.t in d'.timers && CallsOf(d, c.t) <= CallsOf(d', c.t)
    && var due, calls := Due(d', now.epoch, c.t), CallsOf(d', c.t) - CallsOf(d, c.t);
       match c
       case Start(_, _) =>
         && SameKind(d.timers[c.t], d'.timers[c.t])
         && Accounts(d.timers[c.t], Some(Time(issued) + d.timers[c.t].period), due, calls, Time(now))
         && (due.Some? ==> Time(now) < due.value)
       case ChangePeriod(_, period) => calls == 0 && due == Some(Time(now) + period) && d'.timers[c.t].period == period
       case _ => calls == 0 && due == None && SameKind(d.timers[c.t], d'.timers[c.t])
  }

  predicate IssuedOk(c: Command, issued: Moment, now: Moment) {
    c.Start? ==> c.at == issued.tick && Time(issued) <= Time(now) < Time(issued) + WRAP
  }

  ghost predicate CommandDone(d: Daemon, last: Moment, d': Daemon, c: Command, issued: Moment, now: Moment) {
    Inv(d', now) && Obeys(d, d', c, issued, now) && OthersDone(d, last, d', now, c.t)
  }

  lemma StartDone(d: Daemon, last: Moment, d1: Daemon, c: Command, issued: Moment, now: Moment)
    requires c.Start? && Detached(d, last, d1, now, c.t) && IssuedOk(c, issued, now)
    ensures CommandDone(d, last, Started(d1, c.t, c.at, now.tick), c, issued, now)
  {
    var d' := Started(d1, c.t, c.at, now.tick);
    var n := StartExact(d1, c.t, issued, now);
    StartedOk(d1, c.t, c.at, now.tick);
    Apply(d, last, d1, d', now, c.t, n);
    StartObeyed(d, d1, d', c, issued, now, n);
  }

  lemma StartObeyed(d: Daemon, d1: Daemon, d': Daemon, c: Command, issued: Moment, now: Moment, n: nat)
    requires c.Start? && c.t in d.timers && c.t in d1.timers && c.t in d'.timers && CallsOf(d', c.t) == CallsOf(d, c.t) + n
    requires SameKind(d.timers[c.t], d1.timers[c.t]) && SameKind(d1.timers[c.t], d'.timers[c.t])
    requires Accounts(d1.timers[c.t], Some(Time(issued) + d1.timers[c.t].period), Due(d', now.epoch, c.t), n, Time(now))
    requires Due(d', now.epoch, c.t).Some? ==> Time(now) < Due(d', now.epoch, c.t).value
    ensures Obeys(d, d', c, issued, now)
  {}

  lemma ChangeDone(d: Daemon, last: Moment, d1: Daemon, c: Command, issued: Moment, now: Moment)
    requires c.ChangePeriod? && Detached(d, last, d1, now, c.t)
    ensures var d2 := Put(d1, c.t, Get(d1, c.t).(active := true, period := c.period));
            CommandDone(d, last, Insert(d2, c.t, Add(now.tick, c.period), now.tick, now.tick).0, c, issued, now)
  {
    var d2 := Put(d1, c.t, Get(d1, c.t).(active := true, period := c.period));
    ChangeExact(d1, c.t, c.period, now);
    Apply(d, last, d1, Insert(d2, c.t, Add(now.tick, c.period), now.tick, now.tick).0, now, c.t, 0);
  }

  lemma StopDone(d: Daemon, last: Moment, d1: Daemon, c: Command, issued: Moment, now: Moment)
    requires (c.Stop? || (c.Delete? && Get(d1, c.t).isStatic)) && Detached(d, last, d1, now, c.t)
    ensures CommandDone(d, last, SetActive(d1, c.t, false), c, issued, now)
  {
    LooseOk(d1, SetActive(d1, c.t, false), c.t);
    CopiesNone(d1.calls, c.t);
    Apply(d, last, d1, SetActive(d1, c.t, false), now, c.t, 0);
  }

  lemma DeleteDone(d: Daemon, last: Moment, d1: Daemon, c: Command, issued: Moment, now: Moment)
    requires c.Delete? && !Get(d1, c.t).isStatic && Detached(d, last, d1, now, c.t)
    ensures CommandDone(d, last, d1.(timers := d1.timers - {c.t}), c, issued, now)
  {
    ForgetOk(d1, c.t);
    var d' := d1.(timers := d1.timers - {c.t});
    forall u | u != c.t && (u in d.timers || u in d'.timers)
      ensures Moves(d, last.epoch, d', now.epoch, u, Time(now)) && ActiveOk(d'.timers[u])
    {
      assert Moves(d, last.epoch, d1, now.epoch, u, Time(now));
    }
  }

  /** One command: the timer it names obeys, however late it is handled; the others move on. */
  lemma CommandExact(d: Daemon, last: Moment, c: Command, issued: Moment, now: Moment)
    requires Inv(d, last) && c.t in d.timers && Time(last) <= Time(now) < Time(last) + WRAP && IssuedOk(c, issued, now)
    ensures CommandDone(d, last, Process(d, c, now.tick), c, issued, now)
  {
    var d1 := Sample(if Get(d, c.t).place != Nowhere then Unlink(d, c.t) else d, now.tick).0;
    DetachSample(d, last, c.t, now);
    match c {
      case Start(_, _) => StartDone(d, last, d1, c, issued, now);
      case ChangePeriod(_, _) => ChangeDone(d, last, d1, c, issued, now);
      case Stop(_) => StopDone(d, last, d1, c, issued, now);
      case Delete(_) =>
        if Get(d1, c.t).isStatic { StopDone(d, last, d1, c, issued, now); } else { DeleteDone(d, last, d1, c, issued, now); }
    }
  }

  // ---------- Runs ----------

  /** The daemon starts with no timers, at tick 0 of the first epoch. */
  function Start(): Daemon {
    Daemon(map[], [], [], true, 0, [])
  }

  lemma InitInv()
    ensures Inv(Start(), MomentOf(0))
  {}

  /** A timer that is created is inactive and in no list. */
  lemma CreateKeeps(d: Daemon, last: Moment, t: TimerId, timer: Timer)
    requires Inv(d, last) && t !in d.timers && !timer.active && timer.place == Nowhere
    ensures Inv(Put(d, t, timer), last)
    ensures forall u :: u in d.timers ==> Moves(d, last.epoch, Put(d, t, timer), last.epoch, u, Time(last))
  {
    var d' := Put(d, t, timer);
    LooseOk(d, d', t);
    forall u | u in d.timers ensures Moves(d, last.epoch, d', last.epoch, u, Time(last)) {
      SameTimerMoves(d, d', last.epoch, u, Time(last));
    }
  }

  /** A timer is created, the daemon comes round, or it receives a command. */
  datatype Event = Create(t: TimerId, timer: Timer) | Check(at: nat) | Receive(c: Command, issued: nat, at: nat)

  function Step(d: Daemon, v: Event): Daemon {
    match v
    case Create(t, timer) => Put(d, t, timer)
    case Check(at) => Round(d, Low(at)).0
    case Receive(c, _, at) => Process(d, c, Low(at))
  }

  /** The time of the last sample after the event. */
  function Sampled(last: nat, v: Event): nat {
    if v.Create? then last else v.at
  }

  function Exec(d: Daemon, run: seq<Event>): Daemon
    decreases |run|
  {
    if run == [] then d else Exec(Step(d, run[0]), run[1..])
  }

  function LastSample(last: nat, run: seq<Event>): nat
    decreases |run|
  {
    if run == [] then last else LastSample(Sampled(last, run[0]), run[1..])
  }

  /** A sample less than a wrap after the last; a command names a timer that exists. */
  predicate EventOk(d: Daemon, last: nat, v: Event) {
    match v
    case Create(t, timer) => t !in d.timers && !timer.active && timer.place == Nowhere
    case Check(at) => last <= at < last + WRAP
    case Receive(c, issued, at) => last <= at < last + WRAP && c.t in d.timers && IssuedOk(c, MomentOf(issued), MomentOf(at))
  }

  predicate WellTimed(d: Daemon, last: nat, run: seq<Event>)
    decreases |run|
  {
    run == [] || (EventOk(d, last, run[0]) && WellTimed(Step(d, run[0]), Sampled(last, run[0]), run[1..]))
  }

  predicate Names(v: Event, t: TimerId) {
    v.Receive? && v.c.t == t
  }

  lemma StepKeeps(d: Daemon, last: nat, v: Event)
    requires Inv(d, MomentOf(last)) && EventOk(d, last, v)
    ensures last <= Sampled(last, v) && Inv(Step(d, v), MomentOf(Sampled(last, v)))
    ensures forall t :: t in d.timers && !Names(v, t) ==> Moves(d, Epoch(last), Step(d, v), Epoch(Sampled(last, v)), t, Sampled(last, v))
  {
    var d', now := Step(d, v), Sampled(last, v);
    match v {
      case Create(t, timer) => CreateKeeps(d, MomentOf(last), t, timer);
      case Check(at) => RoundExact(d, MomentOf(last), MomentOf(at));
      case Receive(c, issued, at) => CommandExact(d, MomentOf(last), c, MomentOf(issued), MomentOf(at));
    }
    forall t | t in d.timers && !Names(v, t) ensures Moves(d, Epoch(last), d', Epoch(now), t, now) {
      assert Moves(d, MomentOf(last).epoch, d', MomentOf(now).epoch, t, Time(MomentOf(now)));
    }
  }

  /** After every step of every run, active timers are in exactly one list, and the lists sorted. */
  lemma {:induction false} RunKeeps(d: Daemon, last: nat, run: seq<Event>)
    requires Inv(d, MomentOf(last)) && WellTimed(d, last, run)
    ensures Inv(Exec(d, run), MomentOf(LastSample(last, run)))
    decreases |run|
  {
    if run != [] {
      StepKeeps(d, last, run[0]);
      RunKeeps(Step(d, run[0]), Sampled(last, run[0]), run[1..]);
    }
  }

  /** The timer's unbounded expiry lies in epoch `e`. */
  predicate DueIn(d: Daemon, last: nat, t: TimerId, e: nat) {
    Due(d, Epoch(last), t).Some? && Epoch(Due(d, Epoch(last), t).value) == e
  }

  /** What that means for the word-level lists: who is where, and in which epoch. */
  lemma ListsByEpoch(d: Daemon, last: nat, t: TimerId)
    requires Inv(d, MomentOf(last)) && t in d.timers
    ensures d.timers[t].active <==> (t in CurrentList(d)) != (t in OverflowList(d))
    ensures t in CurrentList(d) <==> DueIn(d, last, t, Epoch(last))
    ensures t in OverflowList(d) <==> DueIn(d, last, t, Epoch(last) + 1)
  {
    assert Listed(d, First, t) && Listed(d, Second, t);
  }

  /** From the daemon's start, whatever timers are created and commands sent. */
  lemma ConsistentAlways(run: seq<Event>, t: TimerId)
    requires WellTimed(Start(), 0, run)
    ensures var e, now := Exec(Start(), run), LastSample(0, run);
            && Sorted(Expiries(e, CurrentList(e))) && Sorted(Expiries(e, OverflowList(e)))
            && (t in CurrentList(e) || t in OverflowList(e) ==> t in e.timers)
            && (t in e.timers ==> (e.timers[t].active <==> (t in CurrentList(e)) != (t in OverflowList(e))))
            && (t in CurrentList(e) ==> DueIn(e, now, t, Epoch(now)))
            && (t in OverflowList(e) ==> DueIn(e, now, t, Epoch(now) + 1))
  {
    InitInv();
    RunKeeps(Start(), 0, run);
    var e, now := Exec(Start(), run), LastSample(0, run);
    assert Homed(e, First) && Homed(e, Second) && Listed(e, First, t) && Listed(e, Second, t);
    if t in e.timers { ListsByEpoch(e, now, t); }
  }

  predicate Untouched(run: seq<Event>, t: TimerId) {
    forall i :: 0 <= i < |run| ==> !Names(run[i], t)
  }

  /** Over any run that sends `t` no command, its callbacks are for its own expiries in turn. */
  lemma {:induction false} RunAccounts(d: Daemon, last: nat, run: seq<Event>, t: TimerId)
    requires Inv(d, MomentOf(last)) && WellTimed(d, last, run) && t in d.timers && Untouched(run, t)
    ensures last <= LastSample(last, run)
    ensures Moves(d, Epoch(last), Exec(d, run), Epoch(LastSample(last, run)), t, LastSample(last, run))
    decreases |run|
  {
    if run != [] {
      var d1, end := Step(d, run[0]), LastSample(last, run);
      StepKeeps(d, last, run[0]);
      var now := Sampled(last, run[0]);
      RunAccounts(d1, now, run[1..], t);
      MovesTrans(d, Epoch(last), d1, Epoch(now), Exec(d, run), Epoch(end), t, now, end);
    }
  }

  lemma AccountsExact(timer: Timer, x: nat, due: Option<nat>, calls: nat, now: nat, k: nat)
    requires Accounts(timer, Some(x), due, calls, now) && (due.Some? ==> now < due.value)
    ensures if timer.autoReload then k < calls <==> Nth(x, timer.period, k) <= now else calls == if x <= now then 1 else 0
  {
    if timer.autoReload {
      if k < calls { NthGrows(x, timer.period, k, calls - 1); } else { NthGrows(x, timer.period, calls, k); }
    }
  }

  lemma MovesExact(d: Daemon, e: nat, d': Daemon, end: nat, t: TimerId, k: nat)
    requires Moves(d, e, d', Epoch(end), t, end) && CaughtUp(d', MomentOf(end)) && Due(d, e, t).Some?
    ensures var calls, x := CallsOf(d', t) - CallsOf(d, t), Due(d, e, t).value;
            if d.timers[t].autoReload then k < calls <==> Nth(x, d.timers[t].period, k) <= end
            else calls == if x <= end then 1 else 0
  {
    AccountsExact(d.timers[t], Due(d, e, t).value, Due(d', Epoch(end), t), CallsOf(d', t) - CallsOf(d, t), end, k);
  }

  /**
   When the daemon has caught up (it blocks only then), the callbacks it made for a timer since
   any earlier state are exactly the expiries that elapsed: of an auto-reload timer the k-th
   expiry has been called back if and only if it is not after the time of the last sample.
   */
  lemma CallbacksExact(d: Daemon, last: nat, run: seq<Event>, t: TimerId, k: nat)
    requires Inv(d, MomentOf(last)) && WellTimed(d, last, run) && t in d.timers && Untouched(run, t)
    requires CaughtUp(Exec(d, run), MomentOf(LastSample(last, run))) && Due(d, Epoch(last), t).Some?
    ensures var calls, x := CallsOf(Exec(d, run), t) - CallsOf(d, t), Due(d, Epoch(last), t).value;
            if d.timers[t].autoReload then k < calls <==> x + k * d.timers[t].period <= LastSample(last, run)
            else calls == if x <= LastSample(last, run) then 1 else 0
  {
    RunAccounts(d, last, run, t);
    var d', end, x := Exec(d, run), LastSample(last, run), Due(d, Epoch(last), t).value;
    MovesExact(d, Epoch(last), d', end, t, k);
    NthIsProduct(x, d.timers[t].period, k);
  }
}
