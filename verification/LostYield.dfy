/**
 The one step that breaks the bound, in a run from start-up. Task 0 of base priority 1 takes both
 mutexes; task 3 of priority 1 comes to wait for mutex 0, then task 2 of priority 2 and task 1
 of priority 3 for mutex 1. Task 0 gives mutex 1, then mutex 0, and takes mutex 1 again.
 */
module LostYieldExample {
  import opened Wrappers
  import opened ListView
  import opened Tasks
  import opened MutexProtocol
  import opened MutexAccounting
  import opened MutexInversion

  // ---------- Runs in which nobody blocks while holding a mutex ----------

  ghost predicate Reaches(s: State, s': State) {
    exists run :: NobodyBlocksHolding(s, run) && Exec(s, run) == s'
  }

  lemma {:induction false} OneMore(s: State, run: seq<Action>, a: Action)
    requires NobodyBlocksHolding(s, run) && (Enabled(Exec(s, run), a) ==> NoHolderBlocks(Exec(s, run), a))
    ensures NobodyBlocksHolding(s, run + [a]) && Exec(s, run + [a]) == Step(Exec(s, run), a)
    decreases |run|
  {
    if run == [] {
      assert [] + [a] == [a] && [a][1..] == [];
    } else {
      OneMore(Step(s, run[0]), run[1..], a);
      assert (run + [a])[1..] == run[1..] + [a];
    }
  }

  lemma Then(s: State, s1: State, a: Action, s2: State)
    requires Reaches(s, s1) && (Enabled(s1, a) ==> NoHolderBlocks(s1, a)) && Step(s1, a) == s2
    ensures Reaches(s, s2)
  {
    var run :| NobodyBlocksHolding(s, run) && Exec(s, run) == s1;
    OneMore(s, run, a);
  }

  // ---------- The states ----------

  function Someone(prio: nat, base: nat, held: nat, ready: bool, pc: Pc): Task {
    Task(Tcb(if ready then Ready(prio) else Delayed1, 0, if pc.Waiting? then OnEvent(pc.m) else NoEvent, EventValue(prio), prio, base, held), pc)
  }

  function Giver(prio: nat, held: nat, pc: Pc): Task {
    Someone(prio, 1, held, true, pc)
  }

  function Other(prio: nat, ready: bool, pc: Pc): Task {
    Someone(prio, prio, 0, ready, pc)
  }

  function World(a: Task, b: Task, c: Task, d: Task, m0: Mutex, m1: Mutex, current: TaskId, due: bool): State {
    State(map[0 := a, 1 := b, 2 := c, 3 := d], map[0 := m0, 1 := m1], current, due)
  }

  function Free(waiters: seq<TaskId>): Mutex {
    Mutex(1, None, waiters)
  }

  function Held(waiters: seq<TaskId>): Mutex {
    Mutex(0, Some(0), waiters)
  }

  function Start(pc: Pc): State {
    World(Giver(1, 0, pc), Other(3, false, Outside), Other(2, false, Outside), Other(1, false, Outside), Free([]), Free([]), 0, false)
  }

  function TookOne(pc: Pc): State {
    World(Giver(1, 1, pc), Other(3, false, Outside), Other(2, false, Outside), Other(1, false, Outside), Held([]), Free([]), 0, false)
  }

  function Peer(ready: bool, pc: Pc, waiters: seq<TaskId>, current: TaskId, due: bool): State {
    World(Giver(1, 2, Outside), Other(3, false, Outside), Other(2, false, Outside), Other(1, ready, pc), Held(waiters), Held([]), current, due)
  }

  function Middle(prio: nat, ready: bool, pc: Pc, waiters: seq<TaskId>, current: TaskId, due: bool): State {
    World(Giver(prio, 2, Outside), Other(3, false, Outside), Other(2, ready, pc), Other(1, false, Waiting(0, false)),
          Held([3]), Held(waiters), current, due)
  }

  function High(prio: nat, ready: bool, pc: Pc, waiters: seq<TaskId>, current: TaskId, due: bool): State {
    World(Giver(prio, 2, Outside), Other(3, ready, pc), Other(2, false, Waiting(1, true)), Other(1, false, Waiting(0, false)),
          Held([3]), Held(waiters), current, due)
  }

  function GaveOne(): State {
    World(Giver(3, 1, Outside), Other(3, true, Trying(1, true)), Other(2, false, Waiting(1, true)), Other(1, false, Waiting(0, false)),
          Held([3]), Free([2]), 0, false)
  }

  function GaveBoth(pc: Pc): State {
    World(Giver(1, 0, pc), Other(3, true, Trying(1, true)), Other(2, false, Waiting(1, true)), Other(1, true, Trying(0, false)),
          Free([]), Free([2]), 0, false)
  }

  function TookAgain(): State {
    World(Giver(1, 1, Outside), Other(3, true, Trying(1, true)), Other(2, false, Waiting(1, true)), Other(1, true, Trying(0, false)),
          Free([]), Held([2]), 0, false)
  }

  // ---------- The run ----------

  lemma StartInit()
    ensures Init(Start(Outside))
  {}

  lemma ReachesItself(s: State)
    ensures Reaches(s, s)
  {
    assert NobodyBlocksHolding(s, []) && Exec(s, []) == s;
  }

  lemma TakesOne()
    ensures Reaches(Start(Outside), TookOne(Outside))
  {
    var s := Start(Outside);
    ReachesItself(s);
    Then(s, s, Call(0), Start(Trying(0, false)));
    TakesFirst();
    Then(s, Start(Trying(0, false)), Try(true), TookOne(Outside));
  }

  lemma TakesFirst()
    ensures Step(Start(Trying(0, false)), Try(true)) == TookOne(Outside)
  {}

  /** Task 0 takes both mutexes. */
  lemma TakesBoth()
    ensures Reaches(Start(Outside), Peer(false, Outside, [], 0, false))
  {
    var s := Start(Outside);
    TakesOne();
    Then(s, TookOne(Outside), Call(1), TookOne(Trying(1, false)));
    TakesSecond();
    Then(s, TookOne(Trying(1, false)), Try(true), Peer(false, Outside, [], 0, false));
  }

  lemma TakesSecond()
    ensures Step(TookOne(Trying(1, false)), Try(true)) == Peer(false, Outside, [], 0, false)
  {}

  /** Task 3 comes, of the same priority, is switched to, and then blocks on mutex 0. */
  lemma PeerComes()
    ensures Reaches(Start(Outside), Peer(true, Outside, [], 3, false))
  {
    var s := Start(Outside);
    TakesBoth();
    Then(s, Peer(false, Outside, [], 0, false), Arrive(3), Peer(true, Outside, [], 0, false));
    Then(s, Peer(true, Outside, [], 0, false), RequestSwitch, Peer(true, Outside, [], 0, true));
    Then(s, Peer(true, Outside, [], 0, true), Switch(3), Peer(true, Outside, [], 3, false));
  }

  lemma PeerTries()
    ensures Reaches(Start(Outside), Peer(true, Checking(0, false), [], 3, false))
  {
    var s := Start(Outside);
    PeerComes();
    Then(s, Peer(true, Outside, [], 3, false), Call(0), Peer(true, Trying(0, false), [], 3, false));
    Then(s, Peer(true, Trying(0, false), [], 3, false), Try(true), Peer(true, Checking(0, false), [], 3, false));
  }

  lemma PeerWaits()
    ensures Reaches(Start(Outside), Middle(1, false, Outside, [], 0, false))
  {
    var s := Start(Outside);
    PeerTries();
    PeerBlocks();
    GiverResumes();
    Then(s, Peer(true, Checking(0, false), [], 3, false), Check(false), Peer(false, Waiting(0, false), [3], 3, true));
    Then(s, Peer(false, Waiting(0, false), [3], 3, true), Switch(0), Middle(1, false, Outside, [], 0, false));
  }

  lemma GiverResumes()
    ensures Step(Peer(false, Waiting(0, false), [3], 3, true), Switch(0)) == Middle(1, false, Outside, [], 0, false)
  {}

  lemma PeerBlocks()
    ensures Step(Peer(true, Checking(0, false), [], 3, false), Check(false)) == Peer(false, Waiting(0, false), [3], 3, true)
  {
    FirstWaits(Peer(true, Checking(0, false), [], 3, false), 3);
  }

  lemma FirstWaits(s: State, t: TaskId)
    ensures InsertAt([], FirstGreater(Values(s, []), T(s, t).tcb.evt), t) == [t]
  {
    assert Values(s, []) == [];
  }

  /** Task 2 comes, then blocks on mutex 1; task 0 inherits its priority. */
  lemma MiddleComes()
    ensures Reaches(Start(Outside), Middle(1, true, Outside, [], 2, false))
  {
    var s := Start(Outside);
    PeerWaits();
    Then(s, Middle(1, false, Outside, [], 0, false), Arrive(2), Middle(1, true, Outside, [], 0, true));
    Then(s, Middle(1, true, Outside, [], 0, true), Switch(2), Middle(1, true, Outside, [], 2, false));
  }

  lemma MiddleTries()
    ensures Reaches(Start(Outside), Middle(1, true, Checking(1, false), [], 2, false))
  {
    var s := Start(Outside);
    MiddleComes();
    Then(s, Middle(1, true, Outside, [], 2, false), Call(1), Middle(1, true, Trying(1, false), [], 2, false));
    Then(s, Middle(1, true, Trying(1, false), [], 2, false), Try(true), Middle(1, true, Checking(1, false), [], 2, false));
  }

  lemma MiddleWaits()
    ensures Reaches(Start(Outside), High(2, false, Outside, [2], 0, false))
  {
    var s := Start(Outside);
    MiddleTries();
    MiddleBlocks();
    Then(s, Middle(1, true, Checking(1, false), [], 2, false), Check(false), Middle(2, false, Waiting(1, true), [2], 2, true));
    Then(s, Middle(2, false, Waiting(1, true), [2], 2, true), Switch(0), High(2, false, Outside, [2], 0, false));
  }

  lemma MiddleBlocks()
    ensures Step(Middle(1, true, Checking(1, false), [], 2, false), Check(false)) == Middle(2, false, Waiting(1, true), [2], 2, true)
  {
    FirstWaits(Inherit(Middle(1, true, Checking(1, false), [], 2, false), Some(0)).0, 2);
  }

  /** Task 1 comes, then blocks on mutex 1, ahead of task 2. */
  lemma HighComes()
    ensures Reaches(Start(Outside), High(2, true, Outside, [2], 1, false))
  {
    var s := Start(Outside);
    MiddleWaits();
    Then(s, High(2, false, Outside, [2], 0, false), Arrive(1), High(2, true, Outside, [2], 0, true));
    Then(s, High(2, true, Outside, [2], 0, true), Switch(1), High(2, true, Outside, [2], 1, false));
  }

  lemma HighTries()
    ensures Reaches(Start(Outside), High(2, true, Checking(1, false), [2], 1, false))
  {
    var s := Start(Outside);
    HighComes();
    Then(s, High(2, true, Outside, [2], 1, false), Call(1), High(2, true, Trying(1, false), [2], 1, false));
    Then(s, High(2, true, Trying(1, false), [2], 1, false), Try(true), High(2, true, Checking(1, false), [2], 1, false));
  }

  lemma HighWaits()
    ensures Reaches(Start(Outside), High(3, false, Waiting(1, true), [1, 2], 0, false))
  {
    var s := Start(Outside);
    HighTries();
    HighBlocks();
    GiverRuns();
    Then(s, High(2, true, Checking(1, false), [2], 1, false), Check(false), High(3, false, Waiting(1, true), [1, 2], 1, true));
    Then(s, High(3, false, Waiting(1, true), [1, 2], 1, true), Switch(0), High(3, false, Waiting(1, true), [1, 2], 0, false));
  }

  lemma GiverRuns()
    ensures Step(High(3, false, Waiting(1, true), [1, 2], 1, true), Switch(0)) == High(3, false, Waiting(1, true), [1, 2], 0, false)
  {}

  lemma HighBlocks()
    ensures Step(High(2, true, Checking(1, false), [2], 1, false), Check(false)) == High(3, false, Waiting(1, true), [1, 2], 1, true)
  {
    var s := High(2, true, Checking(1, false), [2], 1, false);
    var values := Values(Inherit(s, Some(0)).0, [2]);
    assert values == [EventValue(2)];
    assert FirstGreater(values, EventValue(3)) == 0;
    assert InsertAt([2], 0, 1) == [1, 2];
  }

  lemma GivesOne()
    ensures Step(High(3, false, Waiting(1, true), [1, 2], 0, false), Give(1)) == GaveOne()
  {
    assert [1, 2][1..] == [2];
  }

  /** This give loses the yield. */
  lemma GivesBoth()
    ensures Enabled(GaveOne(), Give(0)) && LostYield(GaveOne(), 0) && Step(GaveOne(), Give(0)) == GaveBoth(Outside)
  {
    assert [3][1..] == [];
    assert Passed(GaveOne(), 1);
  }

  lemma TakesAgain()
    ensures Step(GaveBoth(Outside), Call(1)) == GaveBoth(Trying(1, false)) && !TakeSafe(GaveBoth(Trying(1, false)), 1)
    ensures Step(GaveBoth(Trying(1, false)), Try(true)) == TookAgain()
  {}

  lemma Gives()
    ensures Reaches(Start(Outside), GaveBoth(Outside))
  {
    var s := Start(Outside);
    HighWaits();
    GivesOne();
    Then(s, High(3, false, Waiting(1, true), [1, 2], 0, false), Give(1), GaveOne());
    GivesBoth();
    Then(s, GaveOne(), Give(0), GaveBoth(Outside));
  }

  /** From start-up, with nobody blocking while holding a mutex, a holder comes below a task that waits for its mutex. */
  lemma LostYieldInverts()
    ensures Init(Start(Outside)) && Reaches(Start(Outside), TookAgain()) && !HolderOutranks(TookAgain(), 1)
  {
    var s := Start(Outside);
    StartInit();
    Gives();
    TakesAgain();
    Then(s, GaveBoth(Outside), Call(1), GaveBoth(Trying(1, false)));
    Then(s, GaveBoth(Trying(1, false)), Try(true), TookAgain());
    assert 2 in M(TookAgain(), 1).waiters;
  }
}
