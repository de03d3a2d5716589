/**
 Every interleaving of concurrent Run calls. Each critical section under the scheduler's
 mutex is one step, and so is each thing a call does between sections. The end of a
 caller's context is a step of the environment, as is a change of the slot limit.

 sync.Cond's Broadcast comes after the mutex is released, so it is a step of its own: each
 release of a slot and each change of the limit owes one. It sends parked callers back to
 the top of acquireSlot.
*/
module SchedulerRuns {
  import opened Scheduler
  import opened Retry

  datatype Phase =
    | Following               // waits for the leader's done channel or its own context
    | Checking                // acquireSlot: about to look at the caller's context
    | Locking                 // acquireSlot: about to lock the mutex
    | Parked                  // in cond.Wait after asking a runner to stop
    | Queued                  // in the select on ready and the caller's context
    | Holding                 // owns a slot, outside the work function
    | Calling                 // inside the work function
    | Releasing(out: Outcome) // deferred release pending
    | Deleting(out: Outcome)  // deferred delete of the inFlight entry pending
    | Closing(out: Outcome)   // close(done) pending
    | Returned(out: Outcome)  // Run returned; for a leader, done is closed
    | LeftEarly               // a follower whose own context ended first

  datatype Proc = Proc(key: WorkKey, priority: Priority, flight: Pid, phase: Phase)

  /** Whoever has released the mutex and has yet to call Broadcast. */
  datatype Debtor = ByCaller(p: Pid) | ByLimit

  /** A leader's retry loop: how many attempts it has read, and how many it has made. */
  datatype Loop = Loop(retries: nat, called: nat)

  /**
   `stopped` are the run contexts cancelled by preemption; `err` is the err field of every
   inFlight record; `owed` are the broadcasts to come.
  */
  datatype State = State(
    sh: Shared,
    procs: map<Pid, Proc>,
    cancelled: set<Pid>,
    stopped: set<Pid>,
    err: map<Pid, Outcome>,
    owed: multiset<Debtor>,
    loops: map<Pid, Loop>)

  datatype Action =
    | Arrive(p: Pid, priority: Priority, key: WorkKey)
    | Cancel(p: Pid)
    | FollowDone(p: Pid)
    | FollowLeave(p: Pid)
    | Check(p: Pid)
    | Lock(p: Pid)
    | Broadcast(debtor: Debtor)
    | TakeGrant(p: Pid)
    | GiveUp(p: Pid)
    | BeginCall(p: Pid, retries: nat)
    | EndCall(p: Pid)
    | Finish(p: Pid, out: Outcome)
    | ReleaseSlot(p: Pid)
    | DeleteFlight(p: Pid)
    | CloseDone(p: Pid)
    | SetLimit(n: int)

  function Init(n: int): State {
    State(Shared(map[], map[], map[], {}, NormalizedMax(n)), map[], {}, {}, map[], multiset{}, map[])
  }

  predicate InPhase(s: State, p: Pid, phase: Phase) {
    p in s.procs && s.procs[p].phase == phase
  }

  predicate HasTicket(s: State, p: Pid) {
    p in s.procs && Runner(p, s.procs[p].key) in LaneOf(s.sh, s.procs[p].key.cluster).runners
  }

  predicate InQueue(s: State, p: Pid) {
    p in s.procs && exists w <- LaneOf(s.sh, s.procs[p].key.cluster).waiters :: w.owner == p
  }

  predicate Enabled(s: State, a: Action) {
    match a
    case Arrive(p, _, _) => p !in s.procs
    case Cancel(p) => p in s.procs
    case FollowDone(p) => InPhase(s, p, Following) && Leader(s, p) in s.procs && s.procs[Leader(s, p)].phase.Returned?
    case FollowLeave(p) => InPhase(s, p, Following) && p in s.cancelled
    case Check(p) => InPhase(s, p, Checking)
    case Lock(p) => InPhase(s, p, Locking)
    case Broadcast(d) => d in s.owed
    case TakeGrant(p) => InPhase(s, p, Queued) && HasTicket(s, p)
    case GiveUp(p) => InPhase(s, p, Queued) && p in s.cancelled
    case BeginCall(p, n) => InPhase(s, p, Holding) && n >= 1 && (p in s.loops ==> n == s.loops[p].retries && s.loops[p].called < n)
    case EndCall(p) => InPhase(s, p, Calling)
    case Finish(p, out) =>
      && InPhase(s, p, Holding) && p in s.loops && MayEnd(s.loops[p].retries, s.loops[p].called, out)
      && (out == ContextError ==> p in s.cancelled || p in s.stopped)
    case ReleaseSlot(p) => p in s.procs && s.procs[p].phase.Releasing?
    case DeleteFlight(p) => p in s.procs && s.procs[p].phase.Deleting? && ByCaller(p) !in s.owed
    case CloseDone(p) => p in s.procs && s.procs[p].phase.Closing?
    case SetLimit(_) => true
  }

  function Leader(s: State, p: Pid): Pid
    requires p in s.procs
  {
    s.procs[p].flight
  }

  function To(s: State, p: Pid, phase: Phase): State
    requires p in s.procs
  {
    s.(procs := s.procs[p := s.procs[p].(phase := phase)])
  }

  function Called(s: State, p: Pid): nat {
    if p in s.loops then s.loops[p].called else 0
  }

  function ErrOf(s: State, f: Pid): Outcome {
    if f in s.err then s.err[f] else Success
  }

  ghost function Next(s: State, a: Action): State
    requires Enabled(s, a)
  {
    match a
    case Arrive(p, prio, key) =>
      var f := if key in s.sh.inFlight then s.sh.inFlight[key] else p;
      s.(sh := Join(s.sh, p, prio, key),
         procs := s.procs[p := Proc(key, prio, f, if f == p then Checking else Following)])
    case Cancel(p) => s.(cancelled := s.cancelled + {p})
    case FollowDone(p) => To(s, p, Returned(ErrOf(s, Leader(s, p))))
    case FollowLeave(p) => To(s, p, LeftEarly)
    case Check(p) => if p in s.cancelled then FailAcquire(s, p) else To(s, p, Locking)
    case Lock(p) =>
      var me := s.procs[p];
      var (sh', decision) := Enter(s.sh, p, me.priority, me.key, s.cancelled);
      var s' := s.(sh := sh');
      (match decision
       case TookSlot => To(s', p, Holding)
       case Preempts(v) => To(s', p, Parked).(stopped := s.stopped + {v})
       case Enqueued => To(s', p, Queued))
    case Broadcast(d) =>
      s.(procs := map q <- s.procs ::
           if s.procs[q].phase == Parked then s.procs[q].(phase := Checking) else s.procs[q],
         owed := s.owed - multiset{d})
    case TakeGrant(p) => To(s, p, Holding)
    case GiveUp(p) => FailAcquire(s.(sh := s.sh.(abandoned := s.sh.abandoned + {p})), p)
    case BeginCall(p, n) => To(s, p, Calling).(loops := s.loops[p := Loop(n, Called(s, p) + 1)])
    case EndCall(p) => To(s, p, Holding)
    case Finish(p, out) => To(s, p, Releasing(out)).(err := s.err[p := out])
    case ReleaseSlot(p) =>
      var me := s.procs[p];
      To(s.(sh := Release(s.sh, p, me.key.cluster, s.cancelled), owed := s.owed + multiset{ByCaller(p)}), p, Deleting(me.phase.out))
    case DeleteFlight(p) =>
      To(s.(sh := s.sh.(inFlight := s.sh.inFlight - {s.procs[p].key})), p, Closing(s.procs[p].phase.out))
    case CloseDone(p) => To(s, p, Returned(s.procs[p].phase.out))
    case SetLimit(n) => s.(sh := SetMax(s.sh, n, s.cancelled), owed := s.owed + multiset{ByLimit})
  }

  /** acquireSlot returned the context's error: Run records it and goes straight to the inFlight delete. */
  function FailAcquire(s: State, p: Pid): State
    requires p in s.procs
  {
    To(s, p, Deleting(ContextError)).(err := s.err[p := ContextError])
  }

  // -------------------------------------------------------------- invariants

  predicate InFlightPhase(ph: Phase) {
    !ph.Following? && !ph.Closing? && !ph.Returned? && !ph.LeftEarly?
  }

  predicate SlotPhase(ph: Phase) {
    ph.Holding? || ph.Calling? || ph.Releasing?
  }

  /** inFlight names, for each key, the one leader between its first section and its delete. */
  ghost predicate Flights(s: State) {
    && (forall k <- s.sh.inFlight :: NamesLeader(s, k, s.sh.inFlight[k]))
    && (forall p <- s.procs :: InFlightPhase(s.procs[p].phase) ==>
          s.procs[p].key in s.sh.inFlight && s.sh.inFlight[s.procs[p].key] == p)
    && (forall p <- s.procs :: KnowsLeader(s, p))
  }

  ghost predicate NamesLeader(s: State, k: WorkKey, p: Pid) {
    p in s.procs && s.procs[p].key == k && InFlightPhase(s.procs[p].phase)
  }

  ghost predicate KnowsLeader(s: State, p: Pid)
    requires p in s.procs
  {
    var f := s.procs[p].flight;
    && f in s.procs && s.procs[f].flight == f && s.procs[f].key == s.procs[p].key
    && (f == p ==> !s.procs[p].phase.Following? && !s.procs[p].phase.LeftEarly?)
    && (f != p ==> s.procs[p].phase.Following? || s.procs[p].phase.LeftEarly? || s.procs[p].phase.Returned?)
  }

  /** Who stands behind a ticket: a caller about to take it, one using it, or one that gave up after it was granted. */
  ghost predicate TicketOk(s: State, c: string, r: Runner) {
    && r.owner in s.procs && s.procs[r.owner].key == r.key && r.key.cluster == c
    && (s.procs[r.owner].phase == Queued || SlotPhase(s.procs[r.owner].phase) || r.owner in s.sh.abandoned)
  }

  ghost predicate PlaceOk(s: State, c: string, w: Waiter) {
    && w.owner in s.procs && s.procs[w.owner].key == w.key && w.key.cluster == c
    && s.procs[w.owner].priority == w.priority
    && (s.procs[w.owner].phase == Queued || w.owner in s.sh.abandoned)
  }

  ghost predicate LaneOk(s: State, c: string, lane: Lane) {
    && TidyLane(lane)
    && (forall r <- lane.runners :: TicketOk(s, c, r))
    && (forall w <- lane.waiters :: PlaceOk(s, c, w))
  }

  ghost predicate GaveUpOk(s: State, p: Pid) {
    && p in s.procs && s.procs[p].flight == p && p in s.cancelled
    && (s.procs[p].phase.Deleting? || s.procs[p].phase.Closing? || s.procs[p].phase.Returned?)
  }

  ghost predicate SlotsUsed(s: State) {
    && (forall c :: LaneOk(s, c, LaneOf(s.sh, c)))
    && (forall p <- s.procs :: SlotPhase(s.procs[p].phase) ==> HasTicket(s, p))
    && (forall p <- s.procs :: s.procs[p].phase == Queued ==> HasTicket(s, p) || InQueue(s, p) || p in s.cancelled)
    && (forall p <- s.sh.abandoned :: GaveUpOk(s, p))
  }

  /** No lane has both a free slot and a waiting node. */
  ghost predicate NoIdleSlot(s: State) {
    forall c :: Conserved(LaneOf(s.sh, c), s.sh.maxPerCluster)
  }

  ghost predicate Slots(s: State) {
    SlotsUsed(s) && NoIdleSlot(s)
  }

  /** The effective priority of a flight is the best among everyone who ever joined it, its leader included. */
  ghost predicate EffIsBest(s: State, f: Pid) {
    && f in s.sh.eff
    && (forall q <- s.procs :: s.procs[q].flight == f ==> s.sh.eff[f] <= s.procs[q].priority)
    && (exists q <- s.procs :: s.procs[q].flight == f && s.procs[q].priority == s.sh.eff[f])
  }

  ghost predicate Urgency(s: State) {
    forall p <- s.procs :: EffIsBest(s, s.procs[p].flight)
  }

  predicate Settled(ph: Phase) {
    ph.Releasing? || ph.Deleting? || ph.Closing? || ph.Returned?
  }

  ghost predicate OutcomeOk(s: State, p: Pid)
    requires p in s.procs
  {
    var me := s.procs[p];
    && (me.flight == p && Settled(me.phase) ==> ErrOf(s, p) == me.phase.out)
    && (me.flight != p && me.phase.Returned? ==>
          me.flight in s.procs && s.procs[me.flight].phase == me.phase)
  }

  ghost predicate Outcomes(s: State) {
    forall p <- s.procs :: OutcomeOk(s, p)
  }

  ghost predicate Inv(s: State) {
    Flights(s) && Slots(s) && Urgency(s) && Outcomes(s)
  }

  // ------------------------------------------------------------ preservation

  lemma InitHolds(n: int)
    ensures Inv(Init(n))
  {
  }

  /** The calls and what they asked for are the same; only phases may differ. */
  ghost predicate SameCalls(s: State, s': State) {
    && s'.procs.Keys == s.procs.Keys
    && (forall q <- s.procs :: s'.procs[q].(phase := s.procs[q].phase) == s.procs[q])
  }

  /** Only `p` changes phase. */
  ghost predicate OnlyMoves(s: State, s': State, p: Pid) {
    && SameCalls(s, s')
    && p in s.procs
    && (forall q <- s.procs :: q != p ==> s'.procs[q] == s.procs[q])
  }

  /** A follower ends, or a leader goes on; `drops` tells whether the leader's entry leaves inFlight. */
  ghost predicate MovesOn(before: Phase, after: Phase, drops: bool) {
    if before.Following? then
      after.Returned? || after.LeftEarly?
    else
      && !before.LeftEarly? && !before.Returned? && !after.Following? && !after.LeftEarly?
      && (InFlightPhase(after) <==> InFlightPhase(before) && !drops)
  }

  ghost predicate ProperMove(s: State, s': State, p: Pid, drops: bool) {
    && OnlyMoves(s, s', p)
    && s'.sh.eff == s.sh.eff
    && s'.sh.inFlight == (if drops then s.sh.inFlight - {s.procs[p].key} else s.sh.inFlight)
    && (drops ==> s.procs[p].phase.Deleting?)
    && MovesOn(s.procs[p].phase, s'.procs[p].phase, drops)
  }

  predicate IsMove(a: Action) {
    !a.Arrive? && !a.Cancel? && !a.Broadcast? && !a.SetLimit?
  }

  /** The shape shared by every step but Arrive, Broadcast and those of the environment. */
  lemma StepMoves(s: State, a: Action)
    requires Enabled(s, a) && IsMove(a)
    ensures ProperMove(s, Next(s, a), a.p, a.DeleteFlight?)
  {
    if a.Lock? {
      LockMoves(s, a.p);
      assert a == Lock(a.p);
    } else {
      OtherMoves(s, a);
    }
  }

  lemma OtherMoves(s: State, a: Action)
    requires Enabled(s, a) && IsMove(a) && !a.Lock?
    ensures ProperMove(s, Next(s, a), a.p, a.DeleteFlight?)
  {
    OtherMovesShape(s, a);
    hide Next, Enabled, SlotPhase;
  }

  lemma OtherMovesShape(s: State, a: Action)
    requires Enabled(s, a) && IsMove(a) && !a.Lock?
    ensures var p, s' := a.p, Next(s, a);
            && p in s.procs && p in s'.procs && s'.procs == s.procs[p := s.procs[p].(phase := s'.procs[p].phase)]
            && s'.sh.eff == s.sh.eff
            && s'.sh.inFlight == (if a.DeleteFlight? then s.sh.inFlight - {s.procs[p].key} else s.sh.inFlight)
            && (a.DeleteFlight? ==> s.procs[p].phase.Deleting?)
            && MovesOn(s.procs[p].phase, s'.procs[p].phase, a.DeleteFlight?)
  {
    hide Join, SetMax, Grant, MayEnd, Without, HasTicket, LaneOf, ErrOf, Called;
  }

  lemma LockMoves(s: State, p: Pid)
    requires Enabled(s, Lock(p))
    ensures ProperMove(s, Next(s, Lock(p)), p, false)
  {
    LockCases(s, p);
  }

  lemma BackgroundMoves(s: State, a: Action)
    requires Enabled(s, a) && (a.Cancel? || a.Broadcast? || a.SetLimit?)
    ensures SameCalls(s, Next(s, a))
    ensures Next(s, a).sh.eff == s.sh.eff && Next(s, a).sh.inFlight == s.sh.inFlight && Next(s, a).err == s.err
    ensures forall q <- s.procs :: Next(s, a).procs[q].phase ==
              if a.Broadcast? && s.procs[q].phase == Parked then Checking else s.procs[q].phase
  {
  }

  lemma FlightsKept(s: State, a: Action)
    requires Flights(s) && Enabled(s, a)
    ensures Flights(Next(s, a))
  {
    if a.Arrive? {
      ArriveKeepsFlights(s, a);
    } else if a.Cancel? || a.SetLimit? || a.Broadcast? {
      BackgroundMoves(s, a);
      BackgroundKeepsFlights(s, Next(s, a));
    } else {
      StepMoves(s, a);
      MoveKeepsFlights(s, Next(s, a), a.p, a.DeleteFlight?);
    }
  }

  lemma BackgroundKeepsFlights(s: State, s': State)
    requires Flights(s) && SameCalls(s, s') && s'.sh.inFlight == s.sh.inFlight
    requires forall q <- s.procs :: s'.procs[q].phase == s.procs[q].phase || (s.procs[q].phase == Parked && s'.procs[q].phase == Checking)
    ensures Flights(s')
  {
    forall q | q in s'.procs ensures KnowsLeader(s', q) { assert KnowsLeader(s, q); }
    forall k | k in s'.sh.inFlight ensures NamesLeader(s', k, s'.sh.inFlight[k]) {
      assert NamesLeader(s, k, s.sh.inFlight[k]);
    }
  }

  lemma MoveKeepsFlights(s: State, s': State, p: Pid, drops: bool)
    requires Flights(s) && ProperMove(s, s', p, drops)
    ensures Flights(s')
  {
    forall q | q in s'.procs ensures KnowsLeader(s', q) { assert KnowsLeader(s, q) && KnowsLeader(s, p); }
    forall k | k in s'.sh.inFlight ensures NamesLeader(s', k, s'.sh.inFlight[k]) {
      assert NamesLeader(s, k, s.sh.inFlight[k]);
    }
  }

  lemma ArriveKeepsFlights(s: State, a: Action)
    requires Flights(s) && Enabled(s, a) && a.Arrive?
    ensures Flights(Next(s, a))
  {
    var s' := Next(s, a);
    assert forall q <- s.procs :: KnowsLeader(s, q);
    if a.key in s.sh.inFlight {
      assert NamesLeader(s, a.key, s.sh.inFlight[a.key]);
    }
    forall q | q in s'.procs ensures KnowsLeader(s', q) {
      if q != a.p { assert KnowsLeader(s, q); }
    }
    forall k | k in s'.sh.inFlight ensures NamesLeader(s', k, s'.sh.inFlight[k]) {
      if k in s.sh.inFlight { assert NamesLeader(s, k, s.sh.inFlight[k]); }
    }
  }

  lemma UrgencyKept(s: State, a: Action)
    requires Flights(s) && Urgency(s) && Enabled(s, a)
    ensures Urgency(Next(s, a))
  {
    hide Next, Urgency, Flights;
    var s' := Next(s, a);
    if a.Arrive? {
      ArriveKeepsUrgency(s, a);
    } else {
      if IsMove(a) { StepMoves(s, a); } else { BackgroundMoves(s, a); }
      SameCallsSameUrgency(s, s');
    }
  }

  lemma SameCallsSameUrgency(s: State, s': State)
    requires Urgency(s) && SameCalls(s, s') && s'.sh.eff == s.sh.eff
    ensures Urgency(s')
  {
    forall p | p in s'.procs ensures EffIsBest(s', s'.procs[p].flight) {
      var f := s.procs[p].flight;
      assert EffIsBest(s, f);
      var q :| q in s.procs && s.procs[q].flight == f && s.procs[q].priority == s.sh.eff[f];
      assert s'.procs[q].flight == f;
    }
  }

  lemma ArriveKeepsUrgency(s: State, a: Action)
    requires Flights(s) && Urgency(s) && Enabled(s, a) && a.Arrive?
    ensures Urgency(Next(s, a))
  {
    var s' := Next(s, a);
    var joined := s'.procs[a.p].flight;
    if a.key in s.sh.inFlight {
      assert NamesLeader(s, a.key, joined) && KnowsLeader(s, joined);
    }
    forall p | p in s'.procs ensures EffIsBest(s', s'.procs[p].flight) {
      if p == a.p && joined == a.p {
        NewFlightEff(s, a);
      } else {
        var p0 := if p == a.p then joined else p;
        assert KnowsLeader(s, p0) && EffIsBest(s, s.procs[p0].flight);
        OldFlightEff(s, a, s.procs[p0].flight);
      }
    }
  }

  lemma NewFlightEff(s: State, a: Action)
    requires Flights(s) && Enabled(s, a) && a.Arrive? && a.key !in s.sh.inFlight
    ensures EffIsBest(Next(s, a), a.p)
  {
    assert Next(s, a).procs[a.p].flight == a.p;
    forall q | q in s.procs ensures s.procs[q].flight != a.p {
      assert KnowsLeader(s, q);
    }
  }

  lemma OldFlightEff(s: State, a: Action, f: Pid)
    requires Flights(s) && Enabled(s, a) && a.Arrive? && f in s.procs && EffIsBest(s, f)
    ensures EffIsBest(Next(s, a), f)
  {
    var s' := Next(s, a);
    var q :| q in s.procs && s.procs[q].flight == f && s.procs[q].priority == s.sh.eff[f];
    assert s'.procs[q] == s.procs[q] && s'.procs[a.p].priority == a.priority;
  }

  lemma OutcomesKept(s: State, a: Action)
    requires Flights(s) && Outcomes(s) && Enabled(s, a)
    ensures Outcomes(Next(s, a))
  {
    if a.Arrive? {
      ArriveKeepsOutcomes(s, a);
    } else if IsMove(a) {
      StepMoves(s, a);
      MoverOutcomeOk(s, a);
      OtherErrsStay(s, a);
      OthersOutcomeOk(s, Next(s, a), a.p);
    } else {
      BackgroundMoves(s, a);
      BackgroundKeepsOutcomes(s, Next(s, a));
    }
  }

  lemma ArriveKeepsOutcomes(s: State, a: Action)
    requires Flights(s) && Outcomes(s) && Enabled(s, a) && a.Arrive?
    ensures Outcomes(Next(s, a))
  {
    var s' := Next(s, a);
    forall q | q in s'.procs ensures OutcomeOk(s', q) {
      if q != a.p { assert KnowsLeader(s, q) && OutcomeOk(s, q); }
    }
  }

  lemma BackgroundKeepsOutcomes(s: State, s': State)
    requires Outcomes(s) && SameCalls(s, s') && s'.err == s.err
    requires forall q <- s.procs :: s'.procs[q].phase == s.procs[q].phase || (s.procs[q].phase == Parked && s'.procs[q].phase == Checking)
    ensures Outcomes(s')
  {
    forall q | q in s'.procs ensures OutcomeOk(s', q) { assert OutcomeOk(s, q); }
  }

  lemma OthersOutcomeOk(s: State, s': State, p: Pid)
    requires Flights(s) && Outcomes(s) && OnlyMoves(s, s', p) && OutcomeOk(s', p)
    requires forall q :: q != p ==> ErrOf(s', q) == ErrOf(s, q)
    requires !s.procs[p].phase.Returned?
    ensures Outcomes(s')
  {
    forall q | q in s'.procs ensures OutcomeOk(s', q) {
      assert KnowsLeader(s, q) && OutcomeOk(s, q);
    }
  }

  /** On every exit path the leader records what it returns before its done channel can be seen closed. */
  lemma MoverOutcomeOk(s: State, a: Action)
    requires Flights(s) && Outcomes(s) && Enabled(s, a)
    requires IsMove(a)
    ensures a.p in Next(s, a).procs && OutcomeOk(Next(s, a), a.p)
  {
    hide Next;
    if a.FollowDone? {
      FollowerOutcomeOk(s, a.p);
      assert a == FollowDone(a.p);
    } else if a.Lock? {
      LockerOutcomeOk(s, a.p);
      assert a == Lock(a.p);
    } else {
      LeaderOutcomeOk(s, a);
    }
  }

  lemma LockerOutcomeOk(s: State, p: Pid)
    requires Flights(s) && Outcomes(s) && Enabled(s, Lock(p))
    ensures p in Next(s, Lock(p)).procs && OutcomeOk(Next(s, Lock(p)), p)
  {
    hide Grant, VictimIndex, Flights;
    LeadsItself(s, p);
    LockCases(s, p);
  }

  /** Whoever is past the first section without following leads its own flight. */
  lemma LeadsItself(s: State, p: Pid)
    requires Flights(s) && p in s.procs
    ensures !s.procs[p].phase.Following? && !s.procs[p].phase.LeftEarly? && !s.procs[p].phase.Returned? ==> s.procs[p].flight == p
  {
    assert KnowsLeader(s, p);
  }

  lemma LeaderOutcomeOk(s: State, a: Action)
    requires Flights(s) && Outcomes(s) && Enabled(s, a)
    requires IsMove(a) && !a.Lock? && !a.FollowDone?
    ensures a.p in Next(s, a).procs && OutcomeOk(Next(s, a), a.p)
  {
    hide Flights, Release;
    LeadsItself(s, a.p);
    FollowsOther(s, a.p);
    assert OutcomeOk(s, a.p);
  }

  lemma FollowsOther(s: State, p: Pid)
    requires Flights(s) && p in s.procs
    ensures s.procs[p].phase.Following? ==> s.procs[p].flight != p
  {
    assert KnowsLeader(s, p);
  }

  lemma OtherErrsStay(s: State, a: Action)
    requires Enabled(s, a) && IsMove(a)
    ensures forall q :: q != a.p ==> ErrOf(Next(s, a), q) == ErrOf(s, q)
  {
  }

  lemma FollowerOutcomeOk(s: State, p: Pid)
    requires Flights(s) && Outcomes(s) && Enabled(s, FollowDone(p))
    ensures p in Next(s, FollowDone(p)).procs && OutcomeOk(Next(s, FollowDone(p)), p)
  {
    assert KnowsLeader(s, p) && KnowsLeader(s, Leader(s, p)) && OutcomeOk(s, Leader(s, p));
  }

  // ------------------------------------------------- preservation of the slots

  lemma GrantKeepsLane(s: State, c: string, lane: Lane, max: nat)
    requires LaneOk(s, c, lane)
    ensures LaneOk(s, c, Grant(lane, max, s.sh.abandoned + s.cancelled))
  {
    var gone := s.sh.abandoned + s.cancelled;
    var lane' := Grant(lane, max, gone);
    GrantIsFair(lane, max, gone);
    GrantKeepsTidy(lane, max, gone);
    forall r | r in lane'.runners ensures TicketOk(s, c, r) {
      var k :| 0 <= k < |lane'.runners| && lane'.runners[k] == r;
      if k < |lane.runners| {
        assert lane.runners[k] == r;
      } else {
        assert CameFrom(r, lane.waiters - lane'.waiters, gone);
        var w :| w in lane.waiters && r == Promote(w);
        assert PlaceOk(s, c, w);
      }
    }
  }

  /** A grant in one lane, from a state in which that lane may have a free slot and a waiting node. */
  lemma GrantKeepsSlots(s: State, c: string)
    requires SlotsUsed(s)
    ensures var gone := s.sh.abandoned + s.cancelled;
            var lane' := Grant(LaneOf(s.sh, c), s.sh.maxPerCluster, gone);
            var s' := s.(sh := WithLane(s.sh, c, lane'));
            SlotsUsed(s') && Conserved(lane', s.sh.maxPerCluster)
  {
    hide Grant;
    var gone := s.sh.abandoned + s.cancelled;
    var lane := LaneOf(s.sh, c);
    var lane' := Grant(lane, s.sh.maxPerCluster, gone);
    var s' := s.(sh := WithLane(s.sh, c, lane'));
    GrantIsFair(lane, s.sh.maxPerCluster, gone);
    GrantKeepsLane(s, c, lane, s.sh.maxPerCluster);
    forall d ensures LaneOk(s', d, LaneOf(s'.sh, d)) {
      LaneOkSameProcs(s, s', d, if d == c then lane' else LaneOf(s.sh, d));
    }
    assert forall p <- s'.sh.abandoned :: GaveUpOk(s, p);
    forall p | p in s.procs ensures GrantedKeeps(s, s', p) {
      GrantKeepsPlace(s, s', p, s.sh.maxPerCluster);
    }
  }

  ghost predicate GrantedKeeps(s: State, s': State, p: Pid) {
    && (HasTicket(s, p) ==> HasTicket(s', p))
    && (InQueue(s, p) ==> InQueue(s', p) || HasTicket(s', p) || p in s.sh.abandoned + s.cancelled)
  }

  lemma GrantKeepsPlace(s: State, s': State, p: Pid, max: nat)
    requires p in s.procs && s'.procs == s.procs
    requires LaneOk(s, s.procs[p].key.cluster, LaneOf(s.sh, s.procs[p].key.cluster))
    requires var c := s.procs[p].key.cluster;
             || LaneOf(s'.sh, c) == LaneOf(s.sh, c)
             || GrantedFairly(LaneOf(s.sh, c), LaneOf(s'.sh, c), max, s.sh.abandoned + s.cancelled)
    ensures GrantedKeeps(s, s', p)
  {
    var c := s.procs[p].key.cluster;
    var lane, lane' := LaneOf(s.sh, c), LaneOf(s'.sh, c);
    var me := Runner(p, s.procs[p].key);
    if lane' != lane {
      if me in lane.runners {
        var k :| 0 <= k < |lane.runners| && lane.runners[k] == me;
        assert lane'.runners[k] == me;
      }
      if w :| w in lane.waiters && w.owner == p {
        assert PlaceOk(s, c, w) && Promote(w) == me;
      }
    }
  }

  lemma LaneOkSameProcs(s: State, s': State, c: string, lane: Lane)
    requires LaneOk(s, c, lane) && s'.procs == s.procs && s'.sh.abandoned == s.sh.abandoned
    ensures LaneOk(s', c, lane)
  {
    assert forall r <- lane.runners :: TicketOk(s, c, r);
    assert forall w <- lane.waiters :: PlaceOk(s, c, w);
  }

  /** A call that holds no place in any lane. */
  ghost predicate Outside(s: State, p: Pid) {
    forall c :: p !in Owners(LaneOf(s.sh, c)) && p !in Queue(LaneOf(s.sh, c))
  }

  lemma NotSlottedIsOutside(s: State, p: Pid)
    requires SlotsUsed(s) && p in s.procs && p !in s.sh.abandoned
    requires s.procs[p].phase != Queued && !SlotPhase(s.procs[p].phase)
    ensures Outside(s, p)
  {
    forall c ensures p !in Owners(LaneOf(s.sh, c)) && p !in Queue(LaneOf(s.sh, c)) {
      assert LaneOk(s, c, LaneOf(s.sh, c));
      assert forall r <- LaneOf(s.sh, c).runners :: TicketOk(s, c, r);
      assert forall w <- LaneOf(s.sh, c).waiters :: PlaceOk(s, c, w);
    }
  }

  lemma TicketExcludesQueue(s: State, p: Pid, c: string)
    requires HasTicket(s, p) && LaneOk(s, c, LaneOf(s.sh, c))
    ensures forall w <- LaneOf(s.sh, c).waiters :: w.owner != p
  {
    var lane := LaneOf(s.sh, c);
    forall w | w in lane.waiters ensures w.owner != p {
      assert PlaceOk(s, c, w) && w.owner in Queue(lane);
      if s.procs[p].key.cluster == c {
        assert p in Owners(lane);
      }
    }
  }

  /** A call changes phase and no lane changes. */
  lemma MoveKeepsLane(s: State, s': State, p: Pid, c: string)
    requires SlotsUsed(s) && OnlyMoves(s, s', p)
    requires s'.sh.lanes == s.sh.lanes && s.cancelled <= s'.cancelled
    requires s'.sh.abandoned == s.sh.abandoned || s'.sh.abandoned == s.sh.abandoned + {p}
    requires s'.procs[p].phase != Queued
    requires s.procs[p].phase == Queued || SlotPhase(s.procs[p].phase) ==>
               SlotPhase(s'.procs[p].phase) || p in s'.sh.abandoned
    requires SlotPhase(s'.procs[p].phase) ==> HasTicket(s, p)
    ensures LaneOk(s', c, LaneOf(s'.sh, c))
  {
    hide TidyLane, GaveUpOk;
    var lane := LaneOf(s.sh, c);
    assert LaneOk(s, c, lane);
    forall r | r in lane.runners ensures TicketOk(s', c, r) {
      assert TicketOk(s, c, r);
    }
    forall w | w in lane.waiters ensures PlaceOk(s', c, w) {
      assert PlaceOk(s, c, w);
      if w.owner == p && SlotPhase(s'.procs[p].phase) {
        TicketExcludesQueue(s, p, c);
      }
    }
  }

  lemma MoveKeepsSlots(s: State, s': State, p: Pid)
    requires SlotsUsed(s) && OnlyMoves(s, s', p)
    requires s'.sh.lanes == s.sh.lanes && s.cancelled <= s'.cancelled
    requires s'.sh.abandoned == s.sh.abandoned || s'.sh.abandoned == s.sh.abandoned + {p}
    requires s'.procs[p].phase != Queued
    requires s.procs[p].phase == Queued || SlotPhase(s.procs[p].phase) ==>
               SlotPhase(s'.procs[p].phase) || p in s'.sh.abandoned
    requires SlotPhase(s'.procs[p].phase) ==> HasTicket(s, p)
    requires p in s'.sh.abandoned ==> GaveUpOk(s', p)
    ensures SlotsUsed(s')
  {
    hide LaneOk;
    forall c ensures LaneOk(s', c, LaneOf(s'.sh, c)) {
      MoveKeepsLane(s, s', p, c);
    }
    forall q | q in s'.sh.abandoned ensures GaveUpOk(s', q) {
      if q != p { assert GaveUpOk(s, q); }
    }
  }

  /** The lane with the caller in it: on a slot, or at the end of the queue. */
  function LaneWith(lane: Lane, p: Pid, me: Proc, phase: Phase): Lane {
    if phase == Holding then lane.(runners := lane.runners + [Runner(p, me.key)])
    else lane.(seqNo := lane.seqNo + 1, waiters := lane.waiters + {Waiter(p, me.priority, lane.seqNo + 1, me.key)})
  }

  function Entered(s: State, p: Pid, phase: Phase): State
    requires p in s.procs
  {
    var me := s.procs[p];
    To(s.(sh := WithLane(s.sh, me.key.cluster, LaneWith(LaneOf(s.sh, me.key.cluster), p, me, phase))), p, phase)
  }

  /** The lock found a free slot, or no one to preempt: the caller enters its lane. */
  lemma EntryKeepsSlots(s: State, p: Pid, phase: Phase)
    requires SlotsUsed(s) && p in s.procs && Outside(s, p) && p !in s.sh.abandoned
    requires phase == Holding || phase == Queued
    ensures SlotsUsed(Entered(s, p, phase))
  {
    var s' := Entered(s, p, phase);
    forall d ensures LaneOk(s', d, LaneOf(s'.sh, d)) {
      EntryKeepsLane(s, p, phase, d);
    }
    forall q | q in s'.procs
      ensures SlotPhase(s'.procs[q].phase) ==> HasTicket(s', q)
      ensures s'.procs[q].phase == Queued ==> HasTicket(s', q) || InQueue(s', q) || q in s'.cancelled
    {
      EntryKeepsPlace(s, p, phase, q);
    }
    assert forall q <- s'.sh.abandoned :: GaveUpOk(s, q);
  }

  lemma EntryKeepsTidy(s: State, p: Pid, phase: Phase, d: string)
    requires p in s.procs && (phase == Holding || phase == Queued)
    requires TidyLane(LaneOf(s.sh, d)) && p !in Owners(LaneOf(s.sh, d)) && p !in Queue(LaneOf(s.sh, d))
    ensures TidyLane(LaneOf(Entered(s, p, phase).sh, d))
  {
    var lane := LaneOf(s.sh, d);
    assert forall i :: 0 <= i < |lane.runners| ==> lane.runners[i] in lane.runners;
  }

  lemma EntryKeepsLane(s: State, p: Pid, phase: Phase, d: string)
    requires SlotsUsed(s) && p in s.procs && Outside(s, p) && p !in s.sh.abandoned
    requires phase == Holding || phase == Queued
    ensures LaneOk(Entered(s, p, phase), d, LaneOf(Entered(s, p, phase).sh, d))
  {
    var s' := Entered(s, p, phase);
    var lane := LaneOf(s.sh, d);
    NotInLane(s, p, d);
    assert LaneOk(s, d, lane) && p !in Owners(lane) && p !in Queue(lane);
    EntryKeepsTidy(s, p, phase, d);
    hide TidyLane, Owners, Queue;
    forall r | r in LaneOf(s'.sh, d).runners ensures TicketOk(s', d, r) {
      if r.owner != p { assert TicketOk(s, d, r); }
    }
    forall w | w in LaneOf(s'.sh, d).waiters ensures PlaceOk(s', d, w) {
      if w.owner != p { assert PlaceOk(s, d, w); }
    }
  }

  lemma EntryKeepsPlace(s: State, p: Pid, phase: Phase, q: Pid)
    requires SlotsUsed(s) && p in s.procs && q in s.procs
    requires phase == Holding || phase == Queued
    ensures var s' := Entered(s, p, phase);
            && (SlotPhase(s'.procs[q].phase) ==> HasTicket(s', q))
            && (s'.procs[q].phase == Queued ==> HasTicket(s', q) || InQueue(s', q) || q in s'.cancelled)
  {
    var s' := Entered(s, p, phase);
    var lane' := LaneOf(s'.sh, s.procs[p].key.cluster);
    if q == p {
      if phase == Holding {
        assert lane'.runners[|lane'.runners| - 1] == Runner(p, s.procs[p].key);
      } else {
        assert Waiter(p, s.procs[p].priority, lane'.seqNo, s.procs[p].key) in lane'.waiters;
      }
    } else if InQueue(s, q) {
      var w :| w in LaneOf(s.sh, s.procs[q].key.cluster).waiters && w.owner == q;
      assert w in LaneOf(s'.sh, s.procs[q].key.cluster).waiters;
    }
  }

  lemma NotInLane(s: State, p: Pid, c: string)
    requires Outside(s, p)
    ensures forall r <- LaneOf(s.sh, c).runners :: r.owner != p
    ensures forall w <- LaneOf(s.sh, c).waiters :: w.owner != p
  {
    forall r | r in LaneOf(s.sh, c).runners ensures r.owner != p { assert r.owner in Owners(LaneOf(s.sh, c)); }
    forall w | w in LaneOf(s.sh, c).waiters ensures w.owner != p { assert w.owner in Queue(LaneOf(s.sh, c)); }
  }

  lemma OneLaneKeepsBusy(s: State, s': State, c: string)
    requires NoIdleSlot(s) && s'.sh == WithLane(s.sh, c, LaneOf(s'.sh, c)).(inFlight := s'.sh.inFlight)
    requires Conserved(LaneOf(s'.sh, c), s.sh.maxPerCluster)
    ensures NoIdleSlot(s')
  {
    forall d ensures Conserved(LaneOf(s'.sh, d), s'.sh.maxPerCluster) {
      assert Conserved(LaneOf(s.sh, d), s.sh.maxPerCluster);
    }
  }

  /** The state in which a lane's grants are made and nothing else of the section is done yet. */
  ghost function AfterGrants(s: State, c: string): State {
    s.(sh := WithLane(s.sh, c, Grant(LaneOf(s.sh, c), s.sh.maxPerCluster, s.sh.abandoned + s.cancelled)))
  }

  /** The three ways acquireSlot's section can end, with exactly when each is taken. */
  lemma LockCases(s: State, p: Pid)
    requires Enabled(s, Lock(p))
    ensures var me, s1, s' := s.procs[p], AfterGrants(s, s.procs[p].key.cluster), Next(s, Lock(p));
            var lane := LaneOf(s1.sh, me.key.cluster);
            if |lane.runners| < s.sh.maxPerCluster then
              s' == Entered(s1, p, Holding)
            else if VictimIndex(lane.runners, s.sh, me.priority) >= 0 then
              s' == To(s1, p, Parked).(stopped := s.stopped + {lane.runners[VictimIndex(lane.runners, s.sh, me.priority)].owner})
            else
              s' == Entered(s1, p, Queued)
  {
    var me, s1, s' := s.procs[p], AfterGrants(s, s.procs[p].key.cluster), Next(s, Lock(p));
    var c := me.key.cluster;
    assert s.sh.lanes[c := LaneOf(s1.sh, c)][c := LaneOf(s'.sh, c)] == s.sh.lanes[c := LaneOf(s'.sh, c)];
  }

  lemma LockerHasNotGivenUp(s: State, p: Pid)
    requires SlotsUsed(s) && InPhase(s, p, Locking)
    ensures p !in s.sh.abandoned
  {
    hide LaneOk;
    assert p in s.sh.abandoned ==> GaveUpOk(s, p);
  }

  lemma LockKeepsSlots(s: State, p: Pid)
    requires Slots(s) && Enabled(s, Lock(p))
    ensures Slots(Next(s, Lock(p)))
  {
    hide LaneOk, Grant, VictimIndex, GaveUpOk;
    var c := s.procs[p].key.cluster;
    var s1 := AfterGrants(s, c);
    var lane := LaneOf(s1.sh, c);
    LockCases(s, p);
    GrantKeepsSlots(s, c);
    LockerHasNotGivenUp(s, p);
    if |lane.runners| < s.sh.maxPerCluster {
      EnteringKeepsSlots(s, p, s1, Holding);
    } else if VictimIndex(lane.runners, s.sh, s.procs[p].priority) >= 0 {
      MoveKeepsSlots(s1, Next(s, Lock(p)), p);
      OneLaneKeepsBusy(s, Next(s, Lock(p)), c);
    } else {
      EnteringKeepsSlots(s, p, s1, Queued);
    }
  }

  lemma EnteringKeepsSlots(s: State, p: Pid, s1: State, phase: Phase)
    requires Slots(s) && SlotsUsed(s1) && InPhase(s1, p, Locking) && p !in s1.sh.abandoned
    requires s1.sh == WithLane(s.sh, s1.procs[p].key.cluster, LaneOf(s1.sh, s1.procs[p].key.cluster))
    requires Conserved(LaneOf(s1.sh, s1.procs[p].key.cluster), s.sh.maxPerCluster)
    requires if |LaneOf(s1.sh, s1.procs[p].key.cluster).runners| < s.sh.maxPerCluster then phase == Holding else phase == Queued
    ensures Slots(Entered(s1, p, phase))
  {
    var c := s1.procs[p].key.cluster;
    var s' := Entered(s1, p, phase);
    NotSlottedIsOutside(s1, p);
    EntryKeepsSlots(s1, p, phase);
    assert s.sh.lanes[c := LaneOf(s1.sh, c)][c := LaneOf(s'.sh, c)] == s.sh.lanes[c := LaneOf(s'.sh, c)];
    OneLaneKeepsBusy(s, s', c);
  }

  lemma ReleaseKeepsSlots(s: State, p: Pid)
    requires Slots(s) && Enabled(s, ReleaseSlot(p))
    ensures Slots(Next(s, ReleaseSlot(p)))
  {
    var c := s.procs[p].key.cluster;
    var lane := LaneOf(s.sh, c);
    var rest := lane.(runners := Without(lane.runners, p));
    var s1 := To(s.(sh := WithLane(s.sh, c, rest), owed := s.owed + multiset{ByCaller(p)}), p, Deleting(s.procs[p].phase.out));
    var s' := Next(s, ReleaseSlot(p));
    assert s' == AfterGrants(s1, c) by {
      assert s.sh.lanes[c := rest][c := LaneOf(s'.sh, c)] == s.sh.lanes[c := LaneOf(s'.sh, c)];
    }
    RemovalKeepsSlots(s, p, s1);
    GrantKeepsSlots(s1, c);
    OneLaneKeepsBusy(s, s', c);
  }

  lemma RemovalKeepsSlots(s: State, p: Pid, s1: State)
    requires Slots(s) && p in s.procs && s.procs[p].phase.Releasing?
    requires var c := s.procs[p].key.cluster; var lane := LaneOf(s.sh, c);
             s1 == To(s.(sh := WithLane(s.sh, c, lane.(runners := Without(lane.runners, p))), owed := s1.owed), p, Deleting(s.procs[p].phase.out))
    ensures SlotsUsed(s1)
  {
    var c := s.procs[p].key.cluster;
    var lane := LaneOf(s.sh, c);
    assert LaneOk(s, c, lane);
    WithoutMembers(lane.runners, p);
    assert p !in s.sh.abandoned by { assert p in s.sh.abandoned ==> GaveUpOk(s, p); }
    assert Owners(lane.(runners := Without(lane.runners, p))) <= Owners(lane);
    forall d ensures LaneOk(s1, d, LaneOf(s1.sh, d)) {
      RemovalKeepsLane(s, p, s1, d);
    }
    assert forall q <- s1.sh.abandoned :: GaveUpOk(s, q);
    forall q | q in s1.procs
      ensures SlotPhase(s1.procs[q].phase) ==> HasTicket(s1, q)
      ensures s1.procs[q].phase == Queued ==> HasTicket(s1, q) || InQueue(s1, q) || q in s1.cancelled
    {
      if q != p { assert GrantedKeeps(s, s1, q); }
    }
  }

  lemma RemovalKeepsLane(s: State, p: Pid, s1: State, d: string)
    requires SlotsUsed(s) && OnlyMoves(s, s1, p) && s.procs[p].phase.Releasing? && p !in s.sh.abandoned
    requires s1.sh.abandoned == s.sh.abandoned
    requires LaneOf(s1.sh, d) == if d == s.procs[p].key.cluster
                                 then LaneOf(s.sh, d).(runners := Without(LaneOf(s.sh, d).runners, p)) else LaneOf(s.sh, d)
    ensures LaneOk(s1, d, LaneOf(s1.sh, d))
  {
    var lane, lane1 := LaneOf(s.sh, d), LaneOf(s1.sh, d);
    assert LaneOk(s, d, lane);
    WithoutMembers(lane.runners, p);
    assert Owners(lane1) <= Owners(lane);
    forall r | r in lane1.runners ensures TicketOk(s1, d, r) {
      assert TicketOk(s, d, r);
    }
    forall w | w in lane1.waiters ensures PlaceOk(s1, d, w) {
      assert PlaceOk(s, d, w);
    }
  }

  lemma LimitKeepsSlots(s: State, n: int)
    requires Slots(s)
    ensures Slots(Next(s, SetLimit(n)))
  {
    var s' := Next(s, SetLimit(n));
    var max := NormalizedMax(n);
    forall c ensures LaneOk(s', c, LaneOf(s'.sh, c)) && Conserved(LaneOf(s'.sh, c), max) {
      var lane := LaneOf(s.sh, c);
      assert LaneOk(s, c, lane);
      GrantIsFair(lane, max, s.sh.abandoned + s.cancelled);
      GrantKeepsLane(s, c, lane, max);
      LaneOkSameProcs(s, s', c, LaneOf(s'.sh, c));
    }
    forall p | p in s.procs ensures GrantedKeeps(s, s', p) {
      var c := s.procs[p].key.cluster;
      GrantIsFair(LaneOf(s.sh, c), max, s.sh.abandoned + s.cancelled);
      GrantKeepsPlace(s, s', p, max);
    }
    assert forall q <- s'.sh.abandoned :: GaveUpOk(s, q);
  }

  lemma SlotsKept(s: State, a: Action)
    requires Flights(s) && Slots(s) && Enabled(s, a)
    ensures Slots(Next(s, a))
  {
    var s' := Next(s, a);
    match a
    case Lock(p) => LockKeepsSlots(s, p);
    case ReleaseSlot(p) => ReleaseKeepsSlots(s, p);
    case SetLimit(n) => LimitKeepsSlots(s, n);
    case Arrive(p, _, _) => ArrivalKeepsSlots(s, a);
    case Cancel(_) | Broadcast(_) =>
      BackgroundMoves(s, a);
      BackgroundKeepsSlots(s, s');
    case _ => QuietMoveKeepsSlots(s, a);
  }

  predicate IsQuietMove(a: Action) {
    IsMove(a) && !a.Lock? && !a.ReleaseSlot?
  }

  lemma QuietMoveKeepsSlots(s: State, a: Action)
    requires Flights(s) && Slots(s) && Enabled(s, a) && IsQuietMove(a)
    ensures Slots(Next(s, a))
  {
    StepMoves(s, a);
    QuietMoveFacts(s, a);
    MoveKeepsSlots(s, Next(s, a), a.p);
    SameLanesSameBusy(s, Next(s, a));
  }

  lemma SameLanesSameBusy(s: State, s': State)
    requires NoIdleSlot(s) && s'.sh.lanes == s.sh.lanes && s'.sh.maxPerCluster == s.sh.maxPerCluster
    ensures NoIdleSlot(s')
  {
    forall c ensures Conserved(LaneOf(s'.sh, c), s'.sh.maxPerCluster) {
      assert Conserved(LaneOf(s.sh, c), s.sh.maxPerCluster);
    }
  }

  lemma QuietMoveFacts(s: State, a: Action)
    requires Flights(s) && Slots(s) && Enabled(s, a) && IsQuietMove(a)
    ensures var p, s' := a.p, Next(s, a);
            && s'.sh.lanes == s.sh.lanes && s'.sh.maxPerCluster == s.sh.maxPerCluster && s'.cancelled == s.cancelled
            && p in s'.procs && p in s.procs
            && s'.sh.abandoned == s.sh.abandoned + (if a.GiveUp? then {p} else {})
            && s'.procs[p].phase != Queued
            && (s.procs[p].phase == Queued || SlotPhase(s.procs[p].phase) ==> SlotPhase(s'.procs[p].phase) || p in s'.sh.abandoned)
            && (SlotPhase(s'.procs[p].phase) ==> HasTicket(s, p))
            && (p in s'.sh.abandoned ==> GaveUpOk(s', p))
  {
    QuietMoveShape(s, a);
    var p, s' := a.p, Next(s, a);
    StepMoves(s, a);
    assert p in s.sh.abandoned ==> GaveUpOk(s, p);
    assert KnowsLeader(s, p);
  }

  lemma QuietMoveShape(s: State, a: Action)
    requires Enabled(s, a) && IsQuietMove(a)
    ensures var p, s' := a.p, Next(s, a);
            && s'.sh.lanes == s.sh.lanes && s'.sh.maxPerCluster == s.sh.maxPerCluster && s'.cancelled == s.cancelled
            && p in s'.procs && p in s.procs
            && s'.sh.abandoned == s.sh.abandoned + (if a.GiveUp? then {p} else {})
            && s'.procs[p].phase != Queued
            && (s.procs[p].phase == Queued || SlotPhase(s.procs[p].phase) ==> SlotPhase(s'.procs[p].phase) || a.GiveUp? || s.procs[p].phase.Releasing?)
            && (SlotPhase(s'.procs[p].phase) ==> SlotPhase(s.procs[p].phase) || HasTicket(s, p))
            && (a.GiveUp? ==> p in s.cancelled && s.procs[p].phase == Queued && s'.procs[p].phase.Deleting?)
  {
    hide Release, Join, SetMax, Grant, MayEnd;
  }

  lemma ArrivalKeepsSlots(s: State, a: Action)
    requires Slots(s) && Enabled(s, a) && a.Arrive?
    ensures Slots(Next(s, a))
  {
    var s' := Next(s, a);
    NewcomerKeepsSlots(s, s', a.p);
    SameLanesSameBusy(s, s');
  }

  lemma NewcomerKeepsSlots(s: State, s': State, p: Pid)
    requires SlotsUsed(s) && p !in s.procs && p in s'.procs && s'.procs == s.procs[p := s'.procs[p]]
    requires s'.procs[p].phase == Checking || s'.procs[p].phase == Following
    requires s'.sh.lanes == s.sh.lanes && s'.sh.abandoned == s.sh.abandoned && s'.cancelled == s.cancelled
    ensures SlotsUsed(s')
  {
    forall c ensures LaneOk(s', c, LaneOf(s'.sh, c)) {
      assert LaneOk(s, c, LaneOf(s.sh, c));
      assert forall r <- LaneOf(s.sh, c).runners :: TicketOk(s, c, r);
      assert forall w <- LaneOf(s.sh, c).waiters :: PlaceOk(s, c, w);
    }
    assert forall q <- s'.sh.abandoned :: GaveUpOk(s, q);
    forall q | q in s'.procs
      ensures SlotPhase(s'.procs[q].phase) ==> HasTicket(s', q)
      ensures s'.procs[q].phase == Queued ==> HasTicket(s', q) || InQueue(s', q) || q in s'.cancelled
    {
      if q != p { assert GrantedKeeps(s, s', q); }
    }
  }

  lemma BackgroundKeepsSlots(s: State, s': State)
    requires Slots(s) && SameCalls(s, s') && s'.sh == s.sh && s.cancelled <= s'.cancelled
    requires forall q <- s.procs :: s'.procs[q].phase == s.procs[q].phase || (s.procs[q].phase == Parked && s'.procs[q].phase == Checking)
    ensures Slots(s')
  {
    SameLanesSameBusy(s, s');
    forall c ensures LaneOk(s', c, LaneOf(s'.sh, c)) {
      assert LaneOk(s, c, LaneOf(s.sh, c));
      assert forall r <- LaneOf(s.sh, c).runners :: TicketOk(s, c, r);
      assert forall w <- LaneOf(s.sh, c).waiters :: PlaceOk(s, c, w);
    }
    assert forall q <- s'.sh.abandoned :: GaveUpOk(s, q);
    forall q | q in s'.procs
      ensures SlotPhase(s'.procs[q].phase) ==> HasTicket(s', q)
      ensures s'.procs[q].phase == Queued ==> HasTicket(s', q) || InQueue(s', q) || q in s'.cancelled
    {
      assert GrantedKeeps(s, s', q);
    }
  }

  lemma InvKept(s: State, a: Action)
    requires Inv(s) && Enabled(s, a)
    ensures Inv(Next(s, a))
  {
    FlightsKept(s, a);
    SlotsKept(s, a);
    UrgencyKept(s, a);
    OutcomesKept(s, a);
  }
}
