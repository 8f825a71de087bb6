/**
 A rendezvous of tasks through `xEventGroupSync`: each owns bits of its own in a common mask and
 waits, without a timeout, for the whole mask. Tasks go through any number of rounds at their
 own pace; `round` counts the rendezvous that are complete.
 */
module Barrier {
  import opened Wrappers
  import opened ListView
  import opened EventWords
  import opened EventGroups

  /** Who takes part, and with which bits. */
  datatype Team = Team(bit: map<TaskId, Word>, mask: Word)

  datatype State = State(group: Group<TaskId>, entered: map<TaskId, nat>, left: map<TaskId, nat>, round: nat)

  datatype Action = Enter(t: TaskId) | Leave(t: TaskId)

  predicate Owns(team: Team, t: TaskId, b: nat) {
    t in team.bit && b in team.bit[t]
  }

  /** Every task owns a bit of the mask, no bit has two owners, and there are no other bits in it. */
  ghost predicate TeamOk(team: Team) {
    && EventsOnly(team.mask)
    && (forall t :: t in team.bit ==> team.bit[t] != {} && team.bit[t] <= team.mask)
    && (forall t, u, b {:trigger Owns(team, t, b), Owns(team, u, b)} :: Owns(team, t, b) && Owns(team, u, b) ==> t == u)
    && (forall b :: b in team.mask ==> exists t :: Owns(team, t, b))
  }

  function Count(counts: map<TaskId, nat>, t: TaskId): nat {
    if t in counts then counts[t] else 0
  }

  function More(counts: map<TaskId, nat>, t: TaskId): map<TaskId, nat> {
    counts[t := Count(counts, t) + 1]
  }

  predicate Enabled(team: Team, s: State, a: Action) {
    match a
    case Enter(t) => t in team.bit && Count(s.entered, t) == Count(s.left, t)
    case Leave(t) => t in team.bit && Count(s.entered, t) == Count(s.left, t) + 1 && t !in s.group.waiters
  }

  /** The bits an entering task returns with, if it need not wait. */
  function EnterEntry(team: Team, s: State, t: TaskId): (Group<TaskId>, Entry)
    requires t in team.bit
  {
    Sync(s.group, t, team.bit[t], team.mask, true)
  }

  function LeaveBits(team: Team, s: State, t: TaskId): (Group<TaskId>, Word) {
    Finish(s.group, t, team.mask, true, true)
  }

  function Step(team: Team, s: State, a: Action): State {
    if !Enabled(team, s, a) then s else
    match a
    case Enter(t) =>
      var (g, entry) := EnterEntry(team, s, t);
      if entry.Blocks? then State(g, More(s.entered, t), s.left, s.round)
      else State(g, More(s.entered, t), More(s.left, t), s.round + 1)
    case Leave(t) => State(LeaveBits(team, s, t).0, s.entered, More(s.left, t), s.round)
  }

  function Exec(team: Team, s: State, run: seq<Action>): State
    decreases |run|
  {
    if run == [] then s else Exec(team, Step(team, s, run[0]), run[1..])
  }

  // ---------- Invariant ----------

  ghost predicate MemberOk(team: Team, s: State, t: TaskId) {
    var entered, left := Count(s.entered, t), Count(s.left, t);
    if t in s.group.waiters then
      t in team.bit && entered == s.round + 1 && left == s.round && t in s.group.value && s.group.value[t] == Pack(team.mask, true, true)
    else if t in team.bit then
      && entered == s.round && (left == entered || left + 1 == entered)
      && (left != entered ==> t in s.group.value && WokenWith(s.group.value[t], team.mask))
    else true
  }

  ghost predicate WokenWith(value: Word, mask: Word) {
    UNBLOCKED in value && mask <= value - CONTROL && EventsOnly(value - CONTROL)
  }

  /** A bit of the mask is set exactly while a task that owns it waits. */
  ghost predicate BitOk(team: Team, s: State, b: nat) {
    b in team.mask ==> (b in s.group.bits <==> exists t :: t in s.group.waiters && Owns(team, t, b))
  }

  ghost predicate Inv(team: Team, s: State) {
    && TeamOk(team) && EventsOnly(s.group.bits) && NoDuplicates(s.group.waiters)
    && (forall t {:trigger MemberOk(team, s, t)} :: MemberOk(team, s, t))
    && (forall b {:trigger BitOk(team, s, b)} :: BitOk(team, s, b))
  }

  lemma InitInv(team: Team, s: State)
    requires TeamOk(team) && EventsOnly(s.group.bits) && s.group.bits * team.mask == {} && s.group.waiters == []
    requires s.round == 0 && s.entered == map[] && s.left == map[]
    ensures Inv(team, s)
  {
    forall b ensures BitOk(team, s, b) { assert b in s.group.bits && b in team.mask ==> b in s.group.bits * team.mask; }
  }

  // ---------- Entering ----------

  /** The whole mask is there. */
  predicate Complete(team: Team, s: State, t: TaskId)
    requires t in team.bit
  {
    team.mask <= s.group.bits + team.bit[t]
  }

  /** The rendezvous is complete exactly when everybody else waits. */
  lemma CompleteExact(team: Team, s: State, t: TaskId)
    requires Inv(team, s) && t in team.bit && t !in s.group.waiters
    ensures Complete(team, s, t) <==> forall u :: u in team.bit && u != t ==> u in s.group.waiters
  {
    if Complete(team, s, t) {
      forall u | u in team.bit && u != t ensures u in s.group.waiters {
        var b :| b in team.bit[u];
        assert Owns(team, u, b) && BitOk(team, s, b);
        assert Owns(team, t, b) ==> u == t;
        var v :| v in s.group.waiters && Owns(team, v, b);
      }
    }
    if forall u :: u in team.bit && u != t ==> u in s.group.waiters {
      forall b | b in team.mask ensures b in s.group.bits + team.bit[t] {
        var u :| Owns(team, u, b);
        assert BitOk(team, s, b);
      }
    }
  }

  /** All waiting tasks wait for the same: setting bits wakes all of them, or none. */
  lemma AllOrNone(team: Team, s: State, t: TaskId)
    requires Inv(team, s) && t in team.bit
    ensures forall u :: u in s.group.waiters ==>
              u in s.group.value && (Met(Value(s.group, u), s.group.bits + team.bit[t]) <==> Complete(team, s, t))
  {
    forall u | u in s.group.waiters
      ensures u in s.group.value && (Met(Value(s.group, u), s.group.bits + team.bit[t]) <==> Complete(team, s, t))
    {
      assert MemberOk(team, s, u);
      PackRoundTrip(team.mask, true, true, s.group.bits + team.bit[t]);
      MaskTest(team.mask, s.group.bits + team.bit[t]);
    }
  }

  lemma MaskTest(mask: Word, bits: Word)
    ensures bits * mask == mask <==> mask <= bits
  {
    if bits * mask == mask { forall b | b in mask ensures b in bits { assert b in bits * mask; } }
  }

  lemma EnterLast(team: Team, s: State, t: TaskId)
    requires Inv(team, s) && Enabled(team, s, Enter(t)) && Complete(team, s, t)
    ensures var (g, entry) := EnterEntry(team, s, t);
            && entry.Returns? && team.mask <= entry.bits && EventsOnly(entry.bits)
            && g.waiters == [] && g.bits * team.mask == {} && EventsOnly(g.bits)
            && (forall u :: u in s.group.waiters ==> u in g.value && g.value[u] == Snapshot(entry.bits))
            && (forall u :: u !in s.group.waiters ==> (u in g.value <==> u in s.group.value) && Value(g, u) == Value(s.group, u))
  {
    var bits := s.group.bits + team.bit[t];
    AllOrNone(team, s, t);
    MaskTest(team.mask, bits);
    OutsideControl(s.group.bits);
    OutsideControl(team.mask);
    assert NotMetBy(s.group, bits, s.group.waiters) == [] by {
      SomeMember(NotMetBy(s.group, bits, s.group.waiters));
    }
  }

  lemma EnterEarly(team: Team, s: State, t: TaskId)
    requires Inv(team, s) && Enabled(team, s, Enter(t)) && !Complete(team, s, t)
    ensures var bits := s.group.bits + team.bit[t];
            EventsOnly(bits) && EnterEntry(team, s, t) == (Enqueue(s.group.(bits := bits), t, Pack(team.mask, true, true)), Blocks)
  {
    var bits := s.group.bits + team.bit[t];
    AllOrNone(team, s, t);
    MaskTest(team.mask, bits);
    OutsideControl(s.group.bits);
    OutsideControl(team.mask);
    NobodyMet(s.group, team.bit[t]);
  }

  lemma EnterKeeps(team: Team, s: State, t: TaskId)
    requires Inv(team, s) && Enabled(team, s, Enter(t))
    ensures Inv(team, Step(team, s, Enter(t)))
  {
    var s' := Step(team, s, Enter(t));
    assert MemberOk(team, s, t);
    CompleteExact(team, s, t);
    if Complete(team, s, t) {
      EnterLast(team, s, t);
      var bits := EnterEntry(team, s, t).1.bits;
      SnapshotRoundTrip(bits);
      forall u ensures MemberOk(team, s', u) { assert MemberOk(team, s, u); }
      forall b ensures BitOk(team, s', b) { assert b in s'.group.bits && b in team.mask ==> b in s'.group.bits * team.mask; }
    } else {
      EarlyGroup(team, s, t);
      forall u ensures MemberOk(team, s', u) { EarlyMember(team, s, t, u); }
      forall b ensures BitOk(team, s', b) { EarlyBits(team, s, t, b); }
    }
  }

  lemma EarlyGroup(team: Team, s: State, t: TaskId)
    requires Inv(team, s) && Enabled(team, s, Enter(t)) && !Complete(team, s, t)
    ensures var g := Step(team, s, Enter(t)).group;
            EventsOnly(g.bits) && (t !in s.group.waiters ==> NoDuplicates(g.waiters))
  {
    EnterEarly(team, s, t);
  }

  lemma EarlyMember(team: Team, s: State, t: TaskId, u: TaskId)
    requires Inv(team, s) && Enabled(team, s, Enter(t)) && !Complete(team, s, t)
    ensures MemberOk(team, Step(team, s, Enter(t)), u)
  {
    EnterEarly(team, s, t);
    assert MemberOk(team, s, u) && MemberOk(team, s, t);
    var s' := Step(team, s, Enter(t));
    assert Count(s'.entered, u) == Count(s.entered, u) + (if u == t then 1 else 0) && s'.left == s.left && s'.round == s.round;
  }

  lemma EarlyBits(team: Team, s: State, t: TaskId, b: nat)
    requires Inv(team, s) && Enabled(team, s, Enter(t)) && !Complete(team, s, t)
    ensures BitOk(team, Step(team, s, Enter(t)), b)
  {
    EnterEarly(team, s, t);
    assert BitOk(team, s, b);
    var s' := Step(team, s, Enter(t));
    if b in team.mask && b in s.group.bits {
      var u :| u in s.group.waiters && Owns(team, u, b);
      assert u in s'.group.waiters;
    }
    if b in team.bit[t] { assert t in s'.group.waiters && Owns(team, t, b); }
  }

  // ---------- Leaving ----------

  /** A woken task returns the snapshot that completed its round; the group does not change. */
  lemma LeaveExact(team: Team, s: State, t: TaskId)
    requires Inv(team, s) && Enabled(team, s, Leave(t))
    ensures LeaveBits(team, s, t).0 == s.group && team.mask <= LeaveBits(team, s, t).1
    ensures EventsOnly(LeaveBits(team, s, t).1)
  {
    assert MemberOk(team, s, t);
  }

  lemma LeaveKeeps(team: Team, s: State, t: TaskId)
    requires Inv(team, s) && Enabled(team, s, Leave(t))
    ensures Inv(team, Step(team, s, Leave(t)))
  {
    var s' := Step(team, s, Leave(t));
    LeaveExact(team, s, t);
    forall u ensures MemberOk(team, s', u) { assert MemberOk(team, s, u); }
    forall b ensures BitOk(team, s', b) { assert BitOk(team, s, b); }
  }

  // ---------- Whole runs ----------

  lemma StepKeeps(team: Team, s: State, a: Action)
    requires Inv(team, s)
    ensures Inv(team, Step(team, s, a))
  {
    if Enabled(team, s, a) {
      match a
      case Enter(t) => EnterKeeps(team, s, t);
      case Leave(t) => LeaveKeeps(team, s, t);
    }
  }

  lemma {:induction false} RunKeeps(team: Team, s: State, run: seq<Action>)
    requires Inv(team, s)
    ensures Inv(team, Exec(team, s, run))
    decreases |run|
  {
    if run != [] {
      StepKeeps(team, s, run[0]);
      RunKeeps(team, Step(team, s, run[0]), run[1..]);
    }
  }

  /** In every interleaving: nobody has left a round that somebody has not entered. */
  lemma NobodyLeavesEarly(team: Team, s: State, run: seq<Action>, t: TaskId, u: TaskId)
    requires Inv(team, s) && t in team.bit && u in team.bit
    ensures var e := Exec(team, s, run);
            && Count(e.left, t) <= Count(e.entered, u) <= Count(e.left, u) + 1
            && Count(e.entered, t) <= Count(e.entered, u) + 1
  {
    RunKeeps(team, s, run);
    var e := Exec(team, s, run);
    assert MemberOk(team, e, t) && MemberOk(team, e, u);
  }

  /** A round starts with its bits clear: none of the mask is set while nobody waits. */
  lemma RoundStartsClear(team: Team, s: State, run: seq<Action>)
    requires Inv(team, s) && Exec(team, s, run).group.waiters == []
    ensures Exec(team, s, run).group.bits * team.mask == {}
  {
    RunKeeps(team, s, run);
    var e := Exec(team, s, run);
    forall b ensures b !in e.group.bits * team.mask { assert BitOk(team, e, b); }
  }

  /** The last to enter returns at once with the whole mask, and everybody else is woken. */
  lemma LastOneReleasesAll(team: Team, s: State, t: TaskId)
    requires Inv(team, s) && Enabled(team, s, Enter(t))
    ensures var (g, entry) := EnterEntry(team, s, t);
            && (entry.Returns? <==> forall u :: u in team.bit && u != t ==> u in s.group.waiters)
            && (entry.Returns? ==> team.mask <= entry.bits && g.waiters == [])
  {
    assert MemberOk(team, s, t);
    CompleteExact(team, s, t);
    if Complete(team, s, t) { EnterLast(team, s, t); } else { EnterEarly(team, s, t); }
  }
}
