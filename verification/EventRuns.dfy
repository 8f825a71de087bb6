/** Whole runs of tasks that use one event group: waits, syncs, sets, clears and timeouts. */
module EventRuns {
  import opened Wrappers
  import opened ListView
  import opened EventWords
  import opened EventGroups

  /** A task is outside the group's functions, or between the two halves of a wait. */
  datatype Pc = Outside | InWait(wanted: Word, clear: bool, all: bool)

  datatype State = State(group: Group<TaskId>, pc: map<TaskId, Pc>)

  datatype Action =
    | Set(more: Word)
    | Clear(bits: Word)
    | Wait(t: TaskId, wanted: Word, clear: bool, all: bool, mayBlock: bool)
    | Meet(t: TaskId, more: Word, wanted: Word, mayBlock: bool)      // xEventGroupSync
    | Expire(t: TaskId)                                               // the tick wakes a waiting task
    | Return(t: TaskId)                                               // the second half of a wait

  predicate Free(s: State, t: TaskId) {
    t in s.pc && s.pc[t] == Outside
  }

  predicate Enabled(s: State, a: Action) {
    match a
    case Set(more) => EventsOnly(more)
    case Clear(bits) => EventsOnly(bits)
    case Wait(t, wanted, _, _, _) => Free(s, t) && EventsOnly(wanted) && wanted != {}
    case Meet(t, more, wanted, _) => Free(s, t) && EventsOnly(more) && EventsOnly(wanted) && wanted != {}
    case Expire(t) => t in s.group.waiters
    case Return(t) => t in s.pc && s.pc[t].InWait? && t !in s.group.waiters
  }

  function Entered(s: State, t: TaskId, g: Group<TaskId>, entry: Entry, pc: Pc): State {
    State(g, s.pc[t := if entry.Blocks? then pc else Outside])
  }

  function Step(s: State, a: Action): State {
    if !Enabled(s, a) then s else
    match a
    case Set(more) => s.(group := SetBits(s.group, more))
    case Clear(bits) => s.(group := ClearBits(s.group, bits))
    case Wait(t, wanted, clear, all, mayBlock) =>
      var (g, entry) := WaitBits(s.group, t, wanted, clear, all, mayBlock);
      Entered(s, t, g, entry, InWait(wanted, clear, all))
    case Meet(t, more, wanted, mayBlock) =>
      var (g, entry) := Sync(s.group, t, more, wanted, mayBlock);
      Entered(s, t, g, entry, InWait(wanted, true, true))
    case Expire(t) => s.(group := TimeOut(s.group, t))
    case Return(t) => State(Finish(s.group, t, s.pc[t].wanted, s.pc[t].clear, s.pc[t].all).0, s.pc[t := Outside])
  }

  function Exec(s: State, run: seq<Action>): State
    decreases |run|
  {
    if run == [] then s else Exec(Step(s, run[0]), run[1..])
  }

  /** A task woken by bits carries a snapshot that meets its condition. */
  ghost predicate WokenOk(value: Word, pc: Pc)
    requires pc.InWait?
  {
    exists bits: Word :: value == Snapshot(bits) && EventsOnly(bits) && Satisfied(bits, pc.wanted, pc.all)
  }

  ghost predicate TaskOk(s: State, t: TaskId) {
    && (t in s.group.waiters ==> t in s.pc && s.pc[t].InWait?)
    && (t in s.pc && s.pc[t].InWait? ==>
          && t in s.group.value && EventsOnly(s.pc[t].wanted)
          && (s.group.value[t] == Pack(s.pc[t].wanted, s.pc[t].clear, s.pc[t].all)
              || (t !in s.group.waiters && WokenOk(s.group.value[t], s.pc[t]))))
  }

  ghost predicate Inv(s: State) {
    && EventsOnly(s.group.bits) && NoDuplicates(s.group.waiters) && NoneSatisfied(s.group)
    && forall t {:trigger TaskOk(s, t)} :: TaskOk(s, t)
  }

  lemma Fewer(bits: Word, fewer: Word)
    requires EventsOnly(bits) && fewer <= bits
    ensures EventsOnly(fewer)
  {
    OutsideControl(bits);
  }

  lemma Together(a: Word, b: Word)
    requires EventsOnly(a) && EventsOnly(b)
    ensures EventsOnly(a + b)
  {
    OutsideControl(a);
    OutsideControl(b);
  }

  lemma SetKeeps(s: State, more: Word)
    requires Inv(s) && EventsOnly(more)
    ensures Inv(s.(group := SetBits(s.group, more)))
  {
    var s', bits := s.(group := SetBits(s.group, more)), s.group.bits + more;
    Together(s.group.bits, more);
    Fewer(bits, s'.group.bits);
    SetBitsUnsatisfied(s.group, more);
    NotMetKeepsOrder(s.group, bits, s.group.waiters);
    forall t ensures TaskOk(s', t) {
      assert TaskOk(s, t);
      if t in s.group.waiters && Met(Value(s.group, t), bits) {
        PackRoundTrip(s.pc[t].wanted, s.pc[t].clear, s.pc[t].all, bits);
        assert WokenOk(Snapshot(bits), s.pc[t]);
      }
    }
  }

  lemma ClearKeeps(s: State, bits: Word)
    requires Inv(s)
    ensures Inv(s.(group := s.group.(bits := s.group.bits - bits)))
  {
    var s' := s.(group := s.group.(bits := s.group.bits - bits));
    Fewer(s.group.bits, s'.group.bits);
    FewerBits(s'.group, s.group.bits);
    forall t ensures TaskOk(s', t) { assert TaskOk(s, t); }
  }

  /** A task whose condition is not met joins the waiting ones. */
  lemma EnqueueKeeps(s: State, t: TaskId, pc: Pc)
    requires Inv(s) && Free(s, t) && pc.InWait? && EventsOnly(pc.wanted) && !Satisfied(s.group.bits, pc.wanted, pc.all)
    ensures Inv(State(Enqueue(s.group, t, Pack(pc.wanted, pc.clear, pc.all)), s.pc[t := pc]))
  {
    var s' := State(Enqueue(s.group, t, Pack(pc.wanted, pc.clear, pc.all)), s.pc[t := pc]);
    assert TaskOk(s, t);
    PackRoundTrip(pc.wanted, pc.clear, pc.all, s.group.bits);
    forall u ensures TaskOk(s', u) { assert TaskOk(s, u); }
  }

  lemma LeaveKeeps(s: State, t: TaskId)
    requires Inv(s) && t in s.pc && t !in s.group.waiters
    ensures Inv(s.(pc := s.pc[t := Outside]))
  {
    var s' := s.(pc := s.pc[t := Outside]);
    forall u ensures TaskOk(s', u) { assert TaskOk(s, u); }
  }

  lemma WaitKeeps(s: State, a: Action)
    requires Inv(s) && Enabled(s, a) && a.Wait?
    ensures Inv(Step(s, a))
  {
    assert TaskOk(s, a.t);
    if Satisfied(s.group.bits, a.wanted, a.all) {
      if a.clear { ClearKeeps(s, a.wanted); LeaveKeeps(s.(group := s.group.(bits := s.group.bits - a.wanted)), a.t); } else { LeaveKeeps(s, a.t); }
    } else if a.mayBlock {
      EnqueueKeeps(s, a.t, InWait(a.wanted, a.clear, a.all));
    } else {
      LeaveKeeps(s, a.t);
    }
  }

  lemma MeetKeeps(s: State, a: Action)
    requires Inv(s) && Enabled(s, a) && a.Meet?
    ensures Inv(Step(s, a))
  {
    var s1 := s.(group := SetBits(s.group, a.more));
    assert TaskOk(s, a.t);
    SetKeeps(s, a.more);
    if (s.group.bits + a.more) * a.wanted == a.wanted {
      ClearKeeps(s1, a.wanted);
      LeaveKeeps(s1.(group := s1.group.(bits := s1.group.bits - a.wanted)), a.t);
    } else if a.mayBlock {
      assert s1.group.bits * a.wanted <= (s.group.bits + a.more) * a.wanted <= a.wanted;
      EnqueueKeeps(s1, a.t, InWait(a.wanted, true, true));
    } else {
      LeaveKeeps(s1, a.t);
    }
  }

  lemma ExpireKeeps(s: State, t: TaskId)
    requires Inv(s) && t in s.group.waiters
    ensures Inv(s.(group := TimeOut(s.group, t)))
  {
    var s' := s.(group := TimeOut(s.group, t));
    MinusFacts(s.group.waiters, t);
    forall u ensures TaskOk(s', u) { assert TaskOk(s, u); }
  }

  lemma ReturnKeeps(s: State, t: TaskId)
    requires Inv(s) && Enabled(s, Return(t))
    ensures Inv(Step(s, Return(t)))
  {
    var pc := s.pc[t];
    if UNBLOCKED !in Value(s.group, t) && Satisfied(s.group.bits, pc.wanted, pc.all) && pc.clear {
      ClearKeeps(s, pc.wanted);
      LeaveKeeps(s.(group := s.group.(bits := s.group.bits - pc.wanted)), t);
    } else {
      LeaveKeeps(s, t);
    }
  }

  lemma StepKeeps(s: State, a: Action)
    requires Inv(s)
    ensures Inv(Step(s, a))
  {
    if Enabled(s, a) {
      match a
      case Set(more) => SetKeeps(s, more);
      case Clear(bits) => ClearKeeps(s, bits);
      case Wait(_, _, _, _, _) => WaitKeeps(s, a);
      case Meet(_, _, _, _) => MeetKeeps(s, a);
      case Expire(t) => ExpireKeeps(s, t);
      case Return(t) => ReturnKeeps(s, t);
    }
  }

  /** In every reachable state no waiting task's condition is met by the bits. */
  lemma {:induction false} NoSatisfiedWaiter(s: State, run: seq<Action>)
    requires Inv(s)
    ensures Inv(Exec(s, run)) && NoneSatisfied(Exec(s, run).group)
    decreases |run|
  {
    if run != [] {
      StepKeeps(s, run[0]);
      NoSatisfiedWaiter(Step(s, run[0]), run[1..]);
    }
  }

  lemma InitInv(s: State)
    requires s.group.bits == {} && s.group.waiters == [] && forall t :: t in s.pc ==> s.pc[t] == Outside
    ensures Inv(s)
  {}

  /**
   What a wait returns: never a control bit; if the task was woken by bits, a snapshot that met
   its condition; else the bits of the group now, and then it takes what it waited for if that
   has come meanwhile.
   */
  lemma ReturnExact(s: State, t: TaskId)
    requires Inv(s) && Enabled(s, Return(t))
    ensures var pc := s.pc[t]; var (g', bits) := Finish(s.group, t, pc.wanted, pc.clear, pc.all);
            && EventsOnly(bits)
            && g'.waiters == s.group.waiters && g'.value == s.group.value
            && (UNBLOCKED in Value(s.group, t) ==> Asked(bits, pc.wanted, pc.all) && g' == s.group)
            && (UNBLOCKED !in Value(s.group, t) ==>
                  && bits == s.group.bits
                  && forall b :: b in g'.bits <==> b in bits && !(Asked(bits, pc.wanted, pc.all) && pc.clear && b in pc.wanted))
  {
    assert TaskOk(s, t);
    var pc := s.pc[t];
    PackRoundTrip(pc.wanted, pc.clear, pc.all, {});
    OutsideControl(s.group.bits);
    assert s.group.bits - CONTROL == s.group.bits;
    AskedIsSatisfied(s.group.bits, pc.wanted, pc.all);
    if UNBLOCKED in Value(s.group, t) {
      var bits: Word :| Value(s.group, t) == Snapshot(bits) && EventsOnly(bits) && Satisfied(bits, pc.wanted, pc.all);
      SnapshotRoundTrip(bits);
      AskedIsSatisfied(bits, pc.wanted, pc.all);
    }
  }

  /** What a caller asks for: all of the bits, or one of them. */
  predicate Asked(bits: Word, wanted: Word, all: bool) {
    if all then forall b :: b in wanted ==> b in bits else exists b :: b in wanted && b in bits
  }

  lemma AskedIsSatisfied(bits: Word, wanted: Word, all: bool)
    ensures Satisfied(bits, wanted, all) <==> Asked(bits, wanted, all)
  {
    if all && Asked(bits, wanted, all) { assert bits * wanted == wanted; }
    if all && Satisfied(bits, wanted, all) {
      forall b | b in wanted ensures b in bits { assert b in bits * wanted; }
    }
    if !all && Satisfied(bits, wanted, all) {
      var b :| b in bits * wanted;
      assert b in wanted && b in bits;
    }
    if b: nat :| b in wanted && b in bits { assert b in bits * wanted; }
  }

  /** The event item value of a blocked task: what it asked for, to be told from any event bits. */
  ghost predicate Remembers(word: Word, wanted: Word, clear: bool, all: bool) {
    && Wanted(word) == wanted && (ClearsOnExit(word) <==> clear)
    && forall bits: Word {:trigger Met(word, bits)} :: EventsOnly(bits) ==> (Met(word, bits) <==> Asked(bits, wanted, all))
  }

  lemma PackRemembers(wanted: Word, clear: bool, all: bool)
    requires EventsOnly(wanted)
    ensures Remembers(Pack(wanted, clear, all), wanted, clear, all)
  {
    forall bits: Word ensures EventsOnly(bits) ==> (Met(Pack(wanted, clear, all), bits) <==> Asked(bits, wanted, all)) {
      PackRoundTrip(wanted, clear, all, bits);
      AskedIsSatisfied(bits, wanted, all);
    }
    PackRoundTrip(wanted, clear, all, {});
  }

  /** The caller is the last to wait, with what it asked for; nobody else is touched. */
  ghost predicate Queued(g: Group<TaskId>, g': Group<TaskId>, t: TaskId, wanted: Word, clear: bool, all: bool) {
    && g'.waiters == g.waiters + [t] && Remembers(Value(g', t), wanted, clear, all)
    && forall u :: u != t ==> Value(g', u) == Value(g, u)
  }

  /**
   The entry of a wait. It blocks exactly if the condition is not met and it may; else it returns
   the bits that it found. A bit goes exactly if the condition is met, the caller asked for
   clearing and waited for it.
   */
  lemma WaitExact(s: State, a: Action)
    requires Inv(s) && Enabled(s, a) && a.Wait?
    ensures var (g, entry) := WaitBits(s.group, a.t, a.wanted, a.clear, a.all, a.mayBlock);
            var met := Asked(s.group.bits, a.wanted, a.all);
            && Step(s, a) == State(g, s.pc[a.t := if !met && a.mayBlock then InWait(a.wanted, a.clear, a.all) else Outside])
            && (entry.Blocks? <==> !met && a.mayBlock)
            && (entry.Returns? ==> entry.bits == s.group.bits)
            && (forall b :: b in g.bits <==> b in s.group.bits && !(met && a.clear && b in a.wanted))
            && (if entry.Blocks? then Queued(s.group, g, a.t, a.wanted, a.clear, a.all)
                else g.waiters == s.group.waiters && g.value == s.group.value)
  {
    AskedIsSatisfied(s.group.bits, a.wanted, a.all);
    PackRemembers(a.wanted, a.clear, a.all);
  }

  /**
   The entry of a rendezvous, after it has set its bits. It blocks exactly if they are not all
   there and it may. It returns the bits with its own before any was cleared if all are there,
   else those that are left. A bit goes exactly if a woken task wanted that, or if all are there
   and it is one of them.
   */
  lemma MeetExact(s: State, a: Action)
    requires Inv(s) && Enabled(s, a) && a.Meet?
    ensures var (g, entry) := Sync(s.group, a.t, a.more, a.wanted, a.mayBlock);
            var g1, bits := SetBits(s.group, a.more), s.group.bits + a.more;
            var met := Asked(bits, a.wanted, true);
            && Step(s, a) == State(g, s.pc[a.t := if !met && a.mayBlock then InWait(a.wanted, true, true) else Outside])
            && (entry.Blocks? <==> !met && a.mayBlock)
            && (entry.Returns? ==> entry.bits == if met then bits else g.bits)
            && (forall b :: b in g.bits <==> b in bits && !Cleared(s.group, bits, b) && !(met && b in a.wanted))
            && (if entry.Blocks? then Queued(g1, g, a.t, a.wanted, true, true)
                else g.waiters == g1.waiters && g.value == g1.value)
  {
    var g1, bits := SetBits(s.group, a.more), s.group.bits + a.more;
    AskedIsSatisfied(bits, a.wanted, true);
    PackRemembers(a.wanted, true, true);
    forall b ensures b in g1.bits <==> b in bits && !Cleared(s.group, bits, b) {
      assert b in ToClear(s.group, MetBy(s.group, bits, s.group.waiters)) <==> Cleared(s.group, bits, b);
    }
  }

  /** Clearing bits takes away those bits and wakes nobody. */
  lemma ClearExact(s: State, clear: Word)
    requires Inv(s) && Enabled(s, Clear(clear))
    ensures var s' := Step(s, Clear(clear));
            && (forall b :: b in s'.group.bits <==> b in s.group.bits && b !in clear)
            && s'.group.waiters == s.group.waiters && s'.group.value == s.group.value && s'.pc == s.pc
            && forall t :: t in s'.group.waiters ==> !Met(Value(s'.group, t), s'.group.bits)
  {
    StepKeeps(s, Clear(clear));
  }

  /** A waiting task whose time is over stops waiting, and keeps what it asked for; nobody else is touched. */
  lemma ExpireExact(s: State, t: TaskId)
    requires Inv(s) && Enabled(s, Expire(t))
    ensures var s' := Step(s, Expire(t));
            && s'.pc == s.pc && s'.group.bits == s.group.bits && s'.group.value == s.group.value
            && t !in s'.group.waiters && exists k: nat :: k < |s.group.waiters| && s.group.waiters == InsertAt(s'.group.waiters, k, t)
  {
    var list := s.group.waiters;
    var k := IndexOf(list, t);
    MinusFacts(list, t);
    PutBack(list, k);
    assert Step(s, Expire(t)).group.waiters == Without(list, k);
  }

  lemma PutBack(list: seq<TaskId>, k: nat)
    requires k < |list|
    ensures list == InsertAt(Without(list, k), k, list[k])
  {}
}
