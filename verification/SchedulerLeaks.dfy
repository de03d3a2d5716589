/**
 What a dropped grant costs: a leaked ticket stays for good, the slots that live callers can
 use shrink by it, and a caller parked on it can sleep for good; and the converse, that
 without leaks every parked caller has a wake-up to come.
*/
module SchedulerLeaks {
  import opened Scheduler
  import opened Retry
  import opened SchedulerRuns
  import opened SchedulerTheorems

  // ------------------------------------------------------------ leaks are for good

  /** The callers whose tickets of a lane are leaked. */
  ghost function LeakedOwners(s: State, c: string): set<Pid> {
    set r <- LaneOf(s.sh, c).runners | r.owner in s.sh.abandoned :: r.owner
  }

  lemma LeakStays(s: State, a: Action, c: string, r: Runner)
    requires Inv(s) && Enabled(s, a) && Leaked(s, c, r)
    ensures Leaked(Next(s, a), c, r)
  {
    hide Next, Flights, Urgency, Outcomes, NoIdleSlot;
    AbandonedByGivingUp(s, a);
    var mid := LaneStep(s, a, c);
    StartKeepsLeak(s, a, c, r);
    LaneMovedKeeps(s, a, c, mid, LaneOf(Next(s, a).sh, c), Next(s, a).sh.maxPerCluster, r);
  }

  /** Nobody releases a leaked ticket. */
  lemma StartKeepsLeak(s: State, a: Action, c: string, r: Runner)
    requires SlotsUsed(s) && Enabled(s, a) && Leaked(s, c, r)
    ensures r in Start(s, a, c).runners
  {
    assert LaneOk(s, c, LaneOf(s.sh, c)) && GaveUpOk(s, r.owner);
    if a.ReleaseSlot? && s.procs[a.p].key.cluster == c {
      WithoutMembers(LaneOf(s.sh, c).runners, a.p);
    }
  }

  lemma LaneMovedKeeps(s: State, a: Action, c: string, mid: Lane, lane': Lane, max: nat, r: Runner)
    requires LaneMoved(s, a, c, mid, lane', max) && r in Start(s, a, c).runners
    ensures r in lane'.runners
  {
  }

  /** Over any run, a leaked ticket is leaked in every later state. */
  lemma {:induction false} LeaksAreForGood(states: seq<State>, acts: seq<Action>, n: int, i: nat, k: nat, c: string, r: Runner)
    requires IsRun(states, acts, n) && i <= k < |states| && Leaked(states[i], c, r)
    ensures Leaked(states[k], c, r)
  {
    hide Leaked, Next, Enabled, Inv;
    if i < k {
      LeaksAreForGood(states, acts, n, i, k - 1, c, r);
      RunKeepsInv(states, acts, n, k - 1);
      LeakStays(states[k - 1], acts[k - 1], c, r);
    }
  }

  /**
   From then on the lane has that many slots less: its executions never exceed its runners
   without the leaked ones, and once the leaked ones reach the limit it gets no new runner.
  */
  lemma LeakedSlotsAreLost(states: seq<State>, acts: seq<Action>, n: int, i: nat, k: nat, c: string)
    requires IsRun(states, acts, n) && i <= k < |states|
    ensures LeakedOwners(states[i], c) <= LeakedOwners(states[k], c)
    ensures |Executing(states[k], c)| + |LeakedOwners(states[i], c)| <= |LaneOf(states[k].sh, c).runners|
    ensures k < |acts| && |LeakedOwners(states[i], c)| >= states[k + 1].sh.maxPerCluster ==>
              |LaneOf(states[k + 1].sh, c).runners| <= |LaneOf(states[k].sh, c).runners|
  {
    hide Next, Enabled, Leaked, Inv;
    forall p <- LeakedOwners(states[i], c) ensures p in LeakedOwners(states[k], c) {
      var r :| r in LaneOf(states[i].sh, c).runners && r.owner in states[i].sh.abandoned && r.owner == p;
      LeakIs(states[i], c, r);
      LeaksAreForGood(states, acts, n, i, k, c, r);
      LeakIs(states[k], c, r);
    }
    SubsetCount(LeakedOwners(states[i], c), LeakedOwners(states[k], c));
    RunKeepsInv(states, acts, n, k);
    ExecutionsAreBounded(states, acts, n, k, c);
    LeakedDoNotExecute(states[k], c);
    if k < |acts| {
      LimitIsRespected(states[k], acts[k], c);
    }
  }

  lemma LeakIs(s: State, c: string, r: Runner)
    ensures Leaked(s, c, r) <==> r in LaneOf(s.sh, c).runners && r.owner in s.sh.abandoned
  {
  }

  lemma LeakedDoNotExecute(s: State, c: string)
    requires Inv(s) && Executing(s, c) <= Owners(LaneOf(s.sh, c))
    ensures |Executing(s, c)| + |LeakedOwners(s, c)| <= |LaneOf(s.sh, c).runners|
  {
    hide Flights, Urgency, Outcomes, NoIdleSlot, LaneOk;
    var runners := LaneOf(s.sh, c).runners;
    forall p <- LeakedOwners(s, c) ensures p !in Executing(s, c) {
      assert GaveUpOk(s, p);
    }
    OwnersCount(runners);
    assert Owners(LaneOf(s.sh, c)) == set r <- runners :: r.owner;
    SubsetCount(Executing(s, c) + LeakedOwners(s, c), Owners(LaneOf(s.sh, c)));
  }

  // ---------------------------------------------------------------- parked callers

  /** A broadcast is on its way, or the lane still has a runner. */
  ghost predicate WakeUpToCome(s: State, p: Pid)
    requires p in s.procs
  {
    s.owed != multiset{} || LaneOf(s.sh, s.procs[p].key.cluster).runners != []
  }

  ghost predicate NoneForgotten(s: State) {
    forall p <- s.procs :: s.procs[p].phase == Parked ==> WakeUpToCome(s, p)
  }

  lemma ParkedHasVictim(s: State, p: Pid)
    requires Inv(s) && Enabled(s, Lock(p)) && InPhase(Next(s, Lock(p)), p, Parked)
    ensures LaneOf(Next(s, Lock(p)).sh, s.procs[p].key.cluster).runners != []
  {
    hide Grant;
    LockCases(s, p);
  }

  /** A step leaves a lane with runners some, or owes a broadcast. */
  lemma RunnersStay(s: State, a: Action, c: string)
    requires Enabled(s, a) && LaneOf(s.sh, c).runners != []
    ensures LaneOf(Next(s, a).sh, c).runners != [] || Next(s, a).owed != multiset{}
  {
    if a.ReleaseSlot? {
      assert ByCaller(a.p) in Next(s, a).owed;
    } else {
      hide Next;
      var r := LaneOf(s.sh, c).runners[0];
      assert r in Start(s, a, c).runners;
      var mid := LaneStep(s, a, c);
      LaneMovedKeeps(s, a, c, mid, LaneOf(Next(s, a).sh, c), Next(s, a).sh.maxPerCluster, r);
    }
  }

  lemma OwedStays(s: State, a: Action)
    requires Enabled(s, a) && s.owed != multiset{}
    ensures Next(s, a).owed != multiset{} || a.Broadcast?
  {
    hide Join, Release, SetMax, Grant;
    var d :| d in s.owed;
    if a.Lock? {
      LockCases(s, a.p);
      assert d in Next(s, a).owed;
    } else if !a.Broadcast? {
      assert d in Next(s, a).owed;
    }
  }

  /** Who is parked after a step was parked before it, or has just looked at its lane. */
  lemma ParkedBefore(s: State, a: Action, p: Pid)
    requires Enabled(s, a) && InPhase(Next(s, a), p, Parked)
    ensures !a.Broadcast? && (a == Lock(p) || InPhase(s, p, Parked))
    ensures p in s.procs && Next(s, a).procs[p].key == s.procs[p].key
  {
    if a.Lock? {
      LockParkedBefore(s, a.p, p);
    } else if IsMove(a) {
      MoveParkedBefore(s, a, p);
    } else if a.Arrive? {
      hide Join;
    } else {
      hide Next;
      BackgroundMoves(s, a);
    }
  }

  lemma LockParkedBefore(s: State, q: Pid, p: Pid)
    requires Enabled(s, Lock(q)) && InPhase(Next(s, Lock(q)), p, Parked)
    ensures p in s.procs && Next(s, Lock(q)).procs[p].key == s.procs[p].key && (p == q || InPhase(s, p, Parked))
  {
    hide Grant, VictimIndex;
    LockCases(s, q);
  }

  lemma MoveParkedBefore(s: State, a: Action, p: Pid)
    requires Enabled(s, a) && IsMove(a) && !a.Lock? && InPhase(Next(s, a), p, Parked)
    ensures InPhase(s, p, Parked) && Next(s, a).procs[p].key == s.procs[p].key
  {
    hide Release;
  }

  lemma StepForgetsNone(s: State, a: Action)
    requires Inv(s) && Enabled(s, a) && NoneForgotten(s)
    ensures NoneForgotten(Next(s, a))
  {
    hide Next, Enabled, Inv;
    var s' := Next(s, a);
    forall p <- s'.procs | s'.procs[p].phase == Parked ensures WakeUpToCome(s', p) {
      ParkedBefore(s, a, p);
      if a == Lock(p) {
        ParkedHasVictim(s, p);
      } else if s.owed != multiset{} {
        OwedStays(s, a);
      } else {
        RunnersStay(s, a, s.procs[p].key.cluster);
      }
    }
  }

  lemma {:induction false} NoneIsForgotten(states: seq<State>, acts: seq<Action>, n: int, i: nat)
    requires IsRun(states, acts, n) && i < |states|
    ensures NoneForgotten(states[i])
  {
    hide Next, Enabled, Inv;
    if i > 0 {
      NoneIsForgotten(states, acts, n, i - 1);
      RunKeepsInv(states, acts, n, i - 1);
      StepForgetsNone(states[i - 1], acts[i - 1]);
    }
  }

  /** The runner's caller is about to take its slot, or holds it and has its release still to come. */
  predicate LiveRunner(s: State, r: Runner) {
    r.owner in s.procs && r.owner !in s.sh.abandoned && (s.procs[r.owner].phase == Queued || SlotPhase(s.procs[r.owner].phase))
  }

  /**
   In a leak-free state of a run, whoever is parked has a broadcast on its way, or a runner
   in its lane whose caller has yet to release its slot and to broadcast.
  */
  lemma ParkedWillBeWoken(states: seq<State>, acts: seq<Action>, n: int, i: nat, p: Pid)
    requires IsRun(states, acts, n) && i < |states|
    ensures NoLeak(states[i]) && InPhase(states[i], p, Parked) ==>
              || states[i].owed != multiset{}
              || exists r <- LaneOf(states[i].sh, states[i].procs[p].key.cluster).runners :: LiveRunner(states[i], r)
  {
    hide Next, Enabled, Flights, Urgency, Outcomes, IsRun;
    var s := states[i];
    NoneIsForgotten(states, acts, n, i);
    RunKeepsInv(states, acts, n, i);
    if NoLeak(s) && InPhase(s, p, Parked) && s.owed == multiset{} {
      var c := s.procs[p].key.cluster;
      assert WakeUpToCome(s, p);
      var r := LaneOf(s.sh, c).runners[0];
      assert r in LaneOf(s.sh, c).runners && LaneOk(s, c, LaneOf(s.sh, c)) && TicketOk(s, c, r) && !Leaked(s, c, r);
    }
  }

  // -------------------------------------------------------------------- a leak

  lemma Extend(states: seq<State>, acts: seq<Action>, n: int, a: Action) returns (states': seq<State>, acts': seq<Action>)
    requires IsRun(states, acts, n) && Enabled(states[|acts|], a)
    ensures IsRun(states', acts', n)
    ensures states'[|acts'|] == Next(states[|acts|], a)
  {
    states', acts' := states + [Next(states[|acts|], a)], acts + [a];
  }

  // What single steps lead to.

  lemma Arrives(s: State, p: Pid, prio: Priority, key: WorkKey)
    requires p !in s.procs && key !in s.sh.inFlight
    ensures Enabled(s, Arrive(p, prio, key))
    ensures Next(s, Arrive(p, prio, key)) ==
              s.(sh := s.sh.(inFlight := s.sh.inFlight[key := p], eff := s.sh.eff[p := prio]), procs := s.procs[p := Proc(key, prio, p, Checking)])
  {
  }

  lemma Checks(s: State, p: Pid)
    requires InPhase(s, p, Checking) && p !in s.cancelled
    ensures Enabled(s, Check(p)) && Next(s, Check(p)) == To(s, p, Locking)
  {
  }

  lemma Deletes(s: State, p: Pid)
    requires p in s.procs && s.procs[p].phase.Deleting? && ByCaller(p) !in s.owed
    ensures Enabled(s, DeleteFlight(p))
    ensures Next(s, DeleteFlight(p)) == To(s.(sh := s.sh.(inFlight := s.sh.inFlight - {s.procs[p].key})), p, Closing(s.procs[p].phase.out))
  {
  }

  lemma Closes(s: State, p: Pid)
    requires p in s.procs && s.procs[p].phase.Closing?
    ensures Enabled(s, CloseDone(p)) && Next(s, CloseDone(p)) == To(s, p, Returned(s.procs[p].phase.out))
  {
  }

  lemma Broadcasts(s: State, d: Debtor)
    requires d in s.owed && forall p <- s.procs :: s.procs[p].phase != Parked
    ensures Enabled(s, Broadcast(d)) && Next(s, Broadcast(d)) == s.(owed := s.owed - multiset{d})
  {
    assert Next(s, Broadcast(d)).procs == s.procs;
  }

  lemma CallsOnce(s: State, p: Pid)
    requires InPhase(s, p, Holding) && p !in s.loops
    ensures Enabled(s, BeginCall(p, 1)) && Enabled(Next(s, BeginCall(p, 1)), EndCall(p))
    ensures Next(Next(s, BeginCall(p, 1)), EndCall(p)) == s.(loops := s.loops[p := Loop(1, 1)])
  {
    var s2 := Next(Next(s, BeginCall(p, 1)), EndCall(p));
    assert s2.procs == s.procs;
  }

  lemma Succeeds(s: State, p: Pid)
    requires InPhase(s, p, Holding) && p in s.loops && MayEnd(s.loops[p].retries, s.loops[p].called, Success)
    ensures Enabled(s, Finish(p, Success))
    ensures Next(s, Finish(p, Success)) == To(s, p, Releasing(Success)).(err := s.err[p := Success])
  {
  }

  const KEY_A := WorkKey("c", "snapshot", "pods", "")
  const KEY_B := WorkKey("c", "snapshot", "nodes", "")

  /** Two callers of one priority in cluster "c": the first leads KEY_A, the second KEY_B. */
  function TwoCalls(lane: Lane, first: Phase, second: Phase): State {
    State(Shared(map[KEY_A := 0, KEY_B := 1], map[0 := 1, 1 := 1], map["c" := lane], {}, 1),
          map[0 := Proc(KEY_A, 1, 0, first), 1 := Proc(KEY_B, 1, 1, second)], {}, {}, map[], multiset{}, map[])
  }

  lemma NothingToGrant(max: nat, gone: set<Pid>)
    ensures Grant(EmptyLane, max, gone) == EmptyLane
  {
  }

  /** The first caller finds an empty lane. */
  lemma FirstLocks(s: State)
    requires s == To(Init(1).(sh := Init(1).sh.(inFlight := map[KEY_A := 0], eff := map[0 := 1]), procs := map[0 := Proc(KEY_A, 1, 0, Checking)]), 0, Locking)
    ensures Enabled(s, Lock(0))
    ensures Next(s, Lock(0)) == s.(sh := s.sh.(lanes := map["c" := Lane([Runner(0, KEY_A)], {}, 0)]), procs := map[0 := Proc(KEY_A, 1, 0, Holding)])
  {
    NothingToGrant(1, s.sh.abandoned + s.cancelled);
    LockCases(s, 0);
    assert [] + [Runner(0, KEY_A)] == [Runner(0, KEY_A)];
    assert Next(s, Lock(0)).sh.lanes == map["c" := Lane([Runner(0, KEY_A)], {}, 0)];
    assert Next(s, Lock(0)).procs == map[0 := Proc(KEY_A, 1, 0, Holding)];
  }

  lemma TwoCallsAre(s: State)
    requires s == Init(1).(sh := Init(1).sh.(inFlight := map[KEY_A := 0][KEY_B := 1], eff := map[0 := 1][1 := 1], lanes := map["c" := Lane([Runner(0, KEY_A)], {}, 0)]),
                           procs := map[0 := Proc(KEY_A, 1, 0, Holding)][1 := Proc(KEY_B, 1, 1, Checking)])
    ensures s == TwoCalls(Lane([Runner(0, KEY_A)], {}, 0), Holding, Checking)
  {
    assert s.sh.inFlight == map[KEY_A := 0, KEY_B := 1] && s.sh.eff == map[0 := 1, 1 := 1];
    assert s.procs == map[0 := Proc(KEY_A, 1, 0, Holding), 1 := Proc(KEY_B, 1, 1, Checking)];
  }

  /** The first caller holds the only slot and the second has just arrived. */
  lemma OneHolds() returns (states: seq<State>, acts: seq<Action>)
    ensures IsRun(states, acts, 1)
    ensures states[|acts|] == TwoCalls(Lane([Runner(0, KEY_A)], {}, 0), Holding, Checking)
  {
    hide Next, Enabled, TwoCalls;
    states, acts := [Init(1)], [];
    Arrives(states[0], 0, 1, KEY_A);
    states, acts := Extend(states, acts, 1, Arrive(0, 1, KEY_A));
    Checks(states[|acts|], 0);
    states, acts := Extend(states, acts, 1, Check(0));
    FirstLocks(states[|acts|]);
    states, acts := Extend(states, acts, 1, Lock(0));
    var s := states[|acts|];
    Arrives(s, 1, 1, KEY_B);
    states, acts := Extend(states, acts, 1, Arrive(1, 1, KEY_B));
    TwoCallsAre(states[|acts|]);
  }

  lemma SecondQueues(s: State)
    requires s == To(TwoCalls(Lane([Runner(0, KEY_A)], {}, 0), Holding, Checking), 1, Locking)
    ensures Enabled(s, Lock(1))
    ensures Next(s, Lock(1)) == TwoCalls(Lane([Runner(0, KEY_A)], {Waiter(1, 1, 1, KEY_B)}, 1), Holding, Queued)
  {
    FullLaneStays(Runner(0, KEY_A), 0, s.sh.abandoned + s.cancelled);
    LockCases(s, 1);
    hide Next;
    var s' := Next(s, Lock(1));
    assert {} + {Waiter(1, 1, 1, KEY_B)} == {Waiter(1, 1, 1, KEY_B)};
    assert s'.sh.lanes == map["c" := Lane([Runner(0, KEY_A)], {Waiter(1, 1, 1, KEY_B)}, 1)];
    assert s'.procs == map[0 := Proc(KEY_A, 1, 0, Holding), 1 := Proc(KEY_B, 1, 1, Queued)];
  }

  /** Nobody is worse than the second caller, so it queues. */
  lemma OneWaits(s: State)
    requires s == TwoCalls(Lane([Runner(0, KEY_A)], {}, 0), Holding, Checking)
    ensures Enabled(s, Check(1)) && Enabled(Next(s, Check(1)), Lock(1))
    ensures Next(Next(s, Check(1)), Lock(1)) == TwoCalls(Lane([Runner(0, KEY_A)], {Waiter(1, 1, 1, KEY_B)}, 1), Holding, Queued)
  {
    hide Next, Enabled;
    Checks(s, 1);
    SecondQueues(To(s, 1, Locking));
  }

  lemma OnlyWaiterIsGranted(w: Waiter)
    ensures Grant(Lane([], {w}, 1), 1, {}) == Lane([Promote(w)], {}, 1)
  {
    assert Least({w}) == w;
    assert {w} - {w} == {};
  }

  const ONE_CALL := map[0 := Loop(1, 1)]
  const SUCCEEDED := map[0 := Success]

  /** The first caller makes its one call, which succeeds. */
  lemma FirstCalls(s: State)
    requires s == TwoCalls(Lane([Runner(0, KEY_A)], {Waiter(1, 1, 1, KEY_B)}, 1), Holding, Queued)
    ensures Enabled(s, BeginCall(0, 1)) && Enabled(Next(s, BeginCall(0, 1)), EndCall(0))
    ensures var s2 := Next(Next(s, BeginCall(0, 1)), EndCall(0));
            && Enabled(s2, Finish(0, Success))
            && Next(s2, Finish(0, Success)) ==
               TwoCalls(Lane([Runner(0, KEY_A)], {Waiter(1, 1, 1, KEY_B)}, 1), Releasing(Success), Queued).(err := SUCCEEDED, loops := ONE_CALL)
  {
    hide Next, Enabled;
    CallsOnce(s, 0);
    var s2 := s.(loops := ONE_CALL);
    assert s2.loops == s.loops[0 := Loop(1, 1)];
    Succeeds(s2, 0);
    assert s2.err[0 := Success] == SUCCEEDED;
    assert To(s2, 0, Releasing(Success)).procs == map[0 := Proc(KEY_A, 1, 0, Releasing(Success)), 1 := Proc(KEY_B, 1, 1, Queued)];
  }

  /** Its release grants the slot to the second. */
  lemma WaiterIsGranted(s: State)
    requires s == TwoCalls(Lane([Runner(0, KEY_A)], {Waiter(1, 1, 1, KEY_B)}, 1), Releasing(Success), Queued).(err := SUCCEEDED, loops := ONE_CALL)
    ensures Enabled(s, ReleaseSlot(0))
    ensures Next(s, ReleaseSlot(0)) ==
              TwoCalls(Lane([Runner(1, KEY_B)], {}, 1), Deleting(Success), Queued)
                .(err := SUCCEEDED, loops := ONE_CALL, owed := multiset{ByCaller(0)})
  {
    assert Without([Runner(0, KEY_A)], 0) == [];
    OnlyWaiterIsGranted(Waiter(1, 1, 1, KEY_B));
    assert s.sh.abandoned + s.cancelled == {};
    var s2 := Next(s, ReleaseSlot(0));
    assert s2.sh.lanes == map["c" := Lane([Runner(1, KEY_B)], {}, 1)];
  }

  /** The slot is granted to a caller that has given up. */
  function Dropped(first: Phase, second: Phase, owed: multiset<Debtor>): State {
    var s := TwoCalls(Lane([Runner(1, KEY_B)], {}, 1), first, second);
    s.(sh := s.sh.(abandoned := {1}), cancelled := {1}, err := SUCCEEDED[1 := ContextError], loops := ONE_CALL, owed := owed)
  }

  /** The granted waiter's context ends, and the select takes the Done branch. */
  lemma GrantIsDropped(s: State)
    requires s == TwoCalls(Lane([Runner(1, KEY_B)], {}, 1), Deleting(Success), Queued)
                    .(err := SUCCEEDED, loops := ONE_CALL, owed := multiset{ByCaller(0)})
    ensures Enabled(s, Cancel(1)) && Enabled(Next(s, Cancel(1)), GiveUp(1))
    ensures Next(Next(s, Cancel(1)), GiveUp(1)) == Dropped(Deleting(Success), Deleting(ContextError), multiset{ByCaller(0)})
  {
    hide Grant, Enter, Release, Join;
  }

  lemma DroppedIsLeaked(first: Phase, second: Phase, owed: multiset<Debtor>)
    ensures Leaked(Dropped(first, second, owed), "c", Runner(1, KEY_B))
  {
  }

  lemma ALeak() returns (states: seq<State>, acts: seq<Action>)
    ensures IsRun(states, acts, 1) && states[|acts|] == Dropped(Deleting(Success), Deleting(ContextError), multiset{ByCaller(0)})
  {
    hide Next, Enabled, TwoCalls, Dropped;
    states, acts := OneHolds();
    OneWaits(states[|acts|]);
    states, acts := Extend(states, acts, 1, Check(1));
    states, acts := Extend(states, acts, 1, Lock(1));
    FirstCalls(states[|acts|]);
    states, acts := Extend(states, acts, 1, BeginCall(0, 1));
    states, acts := Extend(states, acts, 1, EndCall(0));
    states, acts := Extend(states, acts, 1, Finish(0, Success));
    WaiterIsGranted(states[|acts|]);
    states, acts := Extend(states, acts, 1, ReleaseSlot(0));
    GrantIsDropped(states[|acts|]);
    states, acts := Extend(states, acts, 1, Cancel(1));
    states, acts := Extend(states, acts, 1, GiveUp(1));
  }

  /**
   The loss is real: with one slot, a waiter is granted the slot when its holder releases it,
   its context ends, and it takes the Done branch. The slot stays taken with nobody to free it.
  */
  lemma ASlotCanLeak() returns (states: seq<State>, acts: seq<Action>)
    ensures IsRun(states, acts, 1)
    ensures Leaked(states[|acts|], "c", Runner(1, KEY_B))
    ensures forall p <- states[|acts|].procs :: !SlotPhase(states[|acts|].procs[p].phase) && states[|acts|].procs[p].phase != Queued
  {
    states, acts := ALeak();
    DroppedIsLeaked(Deleting(Success), Deleting(ContextError), multiset{ByCaller(0)});
  }

  // ------------------------------------------------------- a sleep without end

  /** The two calls come to their ends. */
  lemma BothReturn(states: seq<State>, acts: seq<Action>) returns (states': seq<State>, acts': seq<Action>)
    requires IsRun(states, acts, 1) && states[|acts|] == Dropped(Deleting(Success), Deleting(ContextError), multiset{ByCaller(0)})
    ensures IsRun(states', acts', 1)
    ensures var t := Dropped(Returned(Success), Returned(ContextError), multiset{});
            states'[|acts'|] == t.(sh := t.sh.(inFlight := map[]))
  {
    FirstReturns(states[|acts|]);
    hide Next, Enabled, Dropped;
    states', acts' := Extend(states, acts, 1, Broadcast(ByCaller(0)));
    states', acts' := Extend(states', acts', 1, DeleteFlight(0));
    states', acts' := Extend(states', acts', 1, CloseDone(0));
    SecondReturns(states'[|acts'|]);
    states', acts' := Extend(states', acts', 1, DeleteFlight(1));
    states', acts' := Extend(states', acts', 1, CloseDone(1));
  }

  lemma FirstReturns(s: State)
    requires s == Dropped(Deleting(Success), Deleting(ContextError), multiset{ByCaller(0)})
    ensures Enabled(s, Broadcast(ByCaller(0))) && Enabled(Next(s, Broadcast(ByCaller(0))), DeleteFlight(0))
    ensures var s2, t := Next(Next(s, Broadcast(ByCaller(0))), DeleteFlight(0)), Dropped(Returned(Success), Deleting(ContextError), multiset{});
            Enabled(s2, CloseDone(0)) && Next(s2, CloseDone(0)) == t.(sh := t.sh.(inFlight := map[KEY_B := 1]))
  {
    hide Next, Enabled;
    Broadcasts(s, ByCaller(0));
    var s1 := Next(s, Broadcast(ByCaller(0)));
    assert multiset{ByCaller(0)} - multiset{ByCaller(0)} == multiset{};
    Deletes(s1, 0);
    var s2 := Next(s1, DeleteFlight(0));
    assert map[KEY_A := 0, KEY_B := 1] - {KEY_A} == map[KEY_B := 1];
    Closes(s2, 0);
    assert To(s2, 0, Returned(Success)).procs == map[0 := Proc(KEY_A, 1, 0, Returned(Success)), 1 := Proc(KEY_B, 1, 1, Deleting(ContextError))];
  }

  lemma SecondReturns(s: State)
    requires var t := Dropped(Returned(Success), Deleting(ContextError), multiset{}); s == t.(sh := t.sh.(inFlight := map[KEY_B := 1]))
    ensures Enabled(s, DeleteFlight(1)) && Enabled(Next(s, DeleteFlight(1)), CloseDone(1))
    ensures var t := Dropped(Returned(Success), Returned(ContextError), multiset{});
            Next(Next(s, DeleteFlight(1)), CloseDone(1)) == t.(sh := t.sh.(inFlight := map[]))
  {
    hide Next, Enabled;
    Deletes(s, 1);
    var s1 := Next(s, DeleteFlight(1));
    assert map[KEY_B := 1] - {KEY_B} == map[];
    Closes(s1, 1);
    assert To(s1, 1, Returned(ContextError)).procs == map[0 := Proc(KEY_A, 1, 0, Returned(Success)), 1 := Proc(KEY_B, 1, 1, Returned(ContextError))];
  }

  /** The caller is parked, no broadcast is on its way, and every other call is over. */
  predicate Asleep(s: State, p: Pid) {
    && InPhase(s, p, Parked) && s.owed == multiset{}
    && forall q <- s.procs :: q != p ==> s.procs[q].phase.Returned? || s.procs[q].phase == LeftEarly
  }

  /** Nothing but a new call or a change of the limit can happen to it; the end of its own context does not wake it. */
  lemma SleepsOn(s: State, p: Pid, a: Action)
    requires Asleep(s, p) && Enabled(s, a)
    ensures a.Arrive? || a.SetLimit? || (a.Cancel? && Asleep(Next(s, a), p))
  {
    hide Grant, Join;
  }

  ghost predicate OnlyCancels(acts: seq<Action>, i: nat) {
    forall k :: i <= k < |acts| ==> !acts[k].Arrive? && !acts[k].SetLimit?
  }

  lemma {:induction false} SleepsForGood(states: seq<State>, acts: seq<Action>, n: int, i: nat, k: nat, p: Pid)
    requires IsRun(states, acts, n) && i <= k < |states| && Asleep(states[i], p) && OnlyCancels(acts, i)
    ensures Asleep(states[k], p)
  {
    hide Asleep, Next, Enabled;
    if i < k {
      SleepsForGood(states, acts, n, i, k - 1, p);
      SleepsOn(states[k - 1], p, acts[k - 1]);
    }
  }

  /** A more urgent caller asks the leaked runner to stop and parks; nobody is left to wake it. */
  lemma LateCallerParks(s: State)
    requires var t := Dropped(Returned(Success), Returned(ContextError), multiset{}); s == t.(sh := t.sh.(inFlight := map[]))
    ensures Enabled(s, Arrive(2, 0, KEY_A)) && Enabled(Next(s, Arrive(2, 0, KEY_A)), Check(2))
    ensures var s2 := Next(Next(s, Arrive(2, 0, KEY_A)), Check(2));
            Enabled(s2, Lock(2)) && Asleep(Next(s2, Lock(2)), 2)
  {
    hide Next, Enabled;
    Arrives(s, 2, 0, KEY_A);
    var s1 := Next(s, Arrive(2, 0, KEY_A));
    Checks(s1, 2);
    var s2 := To(s1, 2, Locking);
    LateCallerLocks(s2);
  }

  lemma LateCallerLocks(s: State)
    requires s.sh.lanes == map["c" := Lane([Runner(1, KEY_B)], {}, 1)] && s.sh.maxPerCluster == 1 && 1 in s.sh.eff && s.sh.eff[1] == 1
    requires InPhase(s, 2, Locking) && s.procs[2].key == KEY_A && s.procs[2].priority == 0 && s.owed == multiset{}
    requires forall q <- s.procs :: q != 2 ==> s.procs[q].phase.Returned?
    ensures Enabled(s, Lock(2)) && Asleep(Next(s, Lock(2)), 2)
  {
    hide Next;
    FullLaneStays(Runner(1, KEY_B), 1, s.sh.abandoned + s.cancelled);
    LockCases(s, 2);
  }

  lemma FullLaneStays(r: Runner, seqNo: nat, gone: set<Pid>)
    ensures Grant(Lane([r], {}, seqNo), 1, gone) == Lane([r], {}, seqNo)
  {
  }

  /** A run that ends with a caller parked on a leaked slot, asleep until a new call or a new limit comes. */
  lemma ACallerCanSleepForGood() returns (states: seq<State>, acts: seq<Action>)
    ensures IsRun(states, acts, 1) && Asleep(states[|acts|], 2)
    ensures forall a :: Enabled(states[|acts|], a) ==> a.Arrive? || a.SetLimit? || a.Cancel?
  {
    hide Next, Enabled, Dropped, Asleep;
    states, acts := ALeak();
    states, acts := BothReturn(states, acts);
    LateCallerParks(states[|acts|]);
    states, acts := Extend(states, acts, 1, Arrive(2, 0, KEY_A));
    states, acts := Extend(states, acts, 1, Check(2));
    states, acts := Extend(states, acts, 1, Lock(2));
    forall a | Enabled(states[|acts|], a) ensures a.Arrive? || a.SetLimit? || a.Cancel? {
      SleepsOn(states[|acts|], 2, a);
    }
  }
}
