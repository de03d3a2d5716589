/** Which outcomes a call of Run can have, what it did to get one, and which calls and slots the scheduler refuses. */
module SchedulerOutcomes {
  import opened Scheduler
  import opened SchedulerRuns
  import opened SchedulerTheorems
  import opened Retry

  // ------------------------------------------------------ outcomes are earned

  /**
   Why a leader ends as it does: its loop made calls of the work function and ended as such a
   loop may, or its context ended before it ever held a slot. A wait cut short means an ended
   context or a preemption.
  */
  ghost predicate Explained(s: State, p: Pid, out: Outcome) {
    if p in s.loops then
      MayEnd(s.loops[p].retries, s.loops[p].called, out) && (out == ContextError ==> p in s.cancelled || p in s.stopped)
    else
      out == ContextError && p in s.cancelled
  }

  ghost predicate LoopOk(s: State, p: Pid) {
    && (p in s.loops ==> p in s.procs && 1 <= s.loops[p].called <= s.loops[p].retries)
    && (p in s.procs ==> PhaseOk(s, p, s.procs[p].phase))
  }

  ghost predicate PhaseOk(s: State, p: Pid, phase: Phase)
    requires p in s.procs
  {
    match phase
    case Following | Checking | Locking | Parked | Queued => p !in s.loops
    case LeftEarly => p !in s.loops && p in s.cancelled
    case Holding | Calling => true
    case Releasing(out) => p in s.loops && Explained(s, p, out)
    case Deleting(out) => Explained(s, p, out)
    case Closing(out) => Explained(s, p, out)
    case Returned(out) => s.procs[p].flight == p ==> Explained(s, p, out)
  }

  lemma StepKeepsLoops(s: State, a: Action, p: Pid)
    requires Flights(s) && Enabled(s, a) && LoopOk(s, p)
    ensures LoopOk(Next(s, a), p)
  {
    if a.Lock? {
      LockKeepsLoops(s, a.p, p);
    } else if a.Arrive? || a.Cancel? || a.Broadcast? || a.SetLimit? {
      BackgroundKeepsLoops(s, a, p);
    } else {
      MoveKeepsLoops(s, a, p);
    }
  }

  lemma LockKeepsLoops(s: State, q: Pid, p: Pid)
    requires Enabled(s, Lock(q)) && LoopOk(s, p)
    ensures LoopOk(Next(s, Lock(q)), p)
  {
    hide Grant, VictimIndex, Next;
    LockCases(s, q);
  }

  lemma BackgroundKeepsLoops(s: State, a: Action, p: Pid)
    requires Enabled(s, a) && LoopOk(s, p) && (a.Arrive? || a.Cancel? || a.Broadcast? || a.SetLimit?)
    ensures LoopOk(Next(s, a), p)
  {
    hide Join, SetMax, Grant, MayEnd;
  }

  lemma MoveKeepsLoops(s: State, a: Action, p: Pid)
    requires Flights(s) && Enabled(s, a) && LoopOk(s, p) && IsMove(a) && !a.Lock?
    ensures LoopOk(Next(s, a), p)
  {
    if p == a.p {
      MoverKeepsLoops(s, a);
    } else {
      hide Next, Enabled, Flights, MayEnd, MovesOn, LoopOk;
      StepMoves(s, a);
      LoopsElsewhereStay(s, a);
      OthersKeepLoops(s, Next(s, a), a.p, p);
    }
  }

  lemma OthersKeepLoops(s: State, s': State, mover: Pid, p: Pid)
    requires OnlyMoves(s, s', mover) && p != mover && LoopOk(s, p)
    requires s'.cancelled == s.cancelled && s'.stopped == s.stopped
    requires (p in s'.loops <==> p in s.loops) && (p in s.loops ==> s'.loops[p] == s.loops[p])
    ensures LoopOk(s', p)
  {
  }

  lemma LoopsElsewhereStay(s: State, a: Action)
    requires Enabled(s, a) && IsMove(a) && !a.Lock?
    ensures var s' := Next(s, a);
            && s'.cancelled == s.cancelled && s'.stopped == s.stopped && s'.loops - {a.p} == s.loops - {a.p}
            && (!a.BeginCall? ==> s'.loops == s.loops)
    ensures forall p :: p != a.p ==> (p in Next(s, a).loops <==> p in s.loops) && (p in s.loops ==> Next(s, a).loops[p] == s.loops[p])
  {
    hide Release, Grant, Join, MayEnd;
  }

  lemma MoverKeepsLoops(s: State, a: Action)
    requires Flights(s) && Enabled(s, a) && IsMove(a) && !a.Lock? && LoopOk(s, a.p)
    ensures LoopOk(Next(s, a), a.p)
  {
    LoopsElsewhereStay(s, a);
    if a.FollowDone? {
      assert KnowsLeader(s, a.p);
      FollowerKeepsLoops(s, a.p);
    } else {
      LeaderKeepsLoops(s, a);
    }
  }

  lemma FollowerKeepsLoops(s: State, p: Pid)
    requires Enabled(s, FollowDone(p)) && LoopOk(s, p) && s.procs[p].flight != p
    ensures LoopOk(Next(s, FollowDone(p)), p)
  {
  }

  lemma LeaderKeepsLoops(s: State, a: Action)
    requires Enabled(s, a) && IsMove(a) && !a.Lock? && !a.FollowDone? && LoopOk(s, a.p)
    ensures LoopOk(Next(s, a), a.p)
  {
    hide Release, Grant, Join, MayEnd;
    if a.BeginCall? || a.Finish? {
      assert LoopOk(Next(s, a), a.p);
    }
  }

  /**
   In every reachable state a leader has called the work function at most as often as the
   retries it read, and an outcome on its way out is one that its calls or its context explain.
  */
  lemma {:induction false} CallsAreBounded(states: seq<State>, acts: seq<Action>, n: int, i: nat, p: Pid)
    requires IsRun(states, acts, n) && i < |states|
    ensures LoopOk(states[i], p)
  {
    hide Next, Enabled, LoopOk, Slots, Urgency, Outcomes, Flights;
    if i > 0 {
      CallsAreBounded(states, acts, n, i - 1, p);
      RunKeepsInv(states, acts, n, i - 1);
      StepKeepsLoops(states[i - 1], acts[i - 1], p);
    } else {
      NoLoops(n, p);
    }
  }

  lemma NoLoops(n: int, p: Pid)
    ensures LoopOk(Init(n), p)
  {
  }

  /** How often a caller has called the work function. */
  function CallsMade(acts: seq<Action>, p: Pid): nat {
    if acts == [] then 0
    else
      var a := acts[|acts| - 1];
      CallsMade(acts[..|acts| - 1], p) + if a.BeginCall? && a.p == p then 1 else 0
  }

  lemma CallStep(s: State, a: Action, p: Pid)
    requires Enabled(s, a)
    ensures Called(Next(s, a), p) == Called(s, p) + if a.BeginCall? && a.p == p then 1 else 0
  {
    if a.Lock? {
      hide Grant, VictimIndex, Next;
      LockCases(s, a.p);
    } else {
      hide Grant, Join, Without, MayEnd;
    }
  }

  /** What the loops have counted are the calls that were made. */
  lemma {:induction false} CallsAreCounted(states: seq<State>, acts: seq<Action>, n: int, i: nat, p: Pid)
    requires IsRun(states, acts, n) && i < |states|
    ensures CallsMade(acts[..i], p) == Called(states[i], p)
  {
    hide Next, Enabled, Called;
    if i > 0 {
      CallsAreCounted(states, acts, n, i - 1, p);
      CallStep(states[i - 1], acts[i - 1], p);
      assert acts[..i][..i - 1] == acts[..i - 1];
    } else {
      NothingCalled(n, p);
    }
  }

  lemma NothingCalled(n: int, p: Pid)
    ensures Called(Init(n), p) == 0
  {
  }

  /**
   Whatever a call of Run returns, as leader or as follower, its leader earned: success, an
   exhausted loop or an error of the work function takes at least one call of it, and without
   a call there is only the error of a context that ended.
  */
  lemma OutcomesAreEarned(states: seq<State>, acts: seq<Action>, n: int, i: nat, q: Pid)
    requires IsRun(states, acts, n) && i < |states|
    requires q in states[i].procs && states[i].procs[q].phase.Returned?
    ensures var s := states[i]; var f, out := s.procs[q].flight, s.procs[q].phase.out;
            var calls := CallsMade(acts[..i], f);
            if f in s.loops then
              && 1 <= calls <= s.loops[f].retries
              && (out == DeadlineExceeded ==> calls == s.loops[f].retries)
              && (out == ContextError ==> calls < s.loops[f].retries && (f in s.cancelled || f in s.stopped))
            else
              calls == 0 && out == ContextError && f in s.cancelled
  {
    var s := states[i];
    OutcomeIsShared(states, acts, n, i, q);
    CallsAreBounded(states, acts, n, i, s.procs[q].flight);
    CallsAreCounted(states, acts, n, i, s.procs[q].flight);
    hide Enabled, Next;
  }

  /** A caller that leaves a shared flight before its leader returns does so because its own context ended. */
  lemma OnlyEndedFollowersLeave(states: seq<State>, acts: seq<Action>, n: int, i: nat, q: Pid)
    requires IsRun(states, acts, n) && i < |states| && InPhase(states[i], q, LeftEarly)
    ensures q in states[i].cancelled && states[i].procs[q].flight != q
  {
    CallsAreBounded(states, acts, n, i, q);
    RunKeepsInv(states, acts, n, i);
    assert KnowsLeader(states[i], q);
  }

  // ------------------------------------------------- ended callers do not start

  /** A leader whose context ended while it was neither queued nor past its last look at it. */
  predicate EndedEarly(s: State, p: Pid) {
    && p in s.procs && p in s.cancelled
    && (s.procs[p].phase == Checking || s.procs[p].phase == Parked
        || s.procs[p].phase == Deleting(ContextError) || s.procs[p].phase == Closing(ContextError)
        || s.procs[p].phase == Returned(ContextError))
  }

  lemma EndedStaysEnded(s: State, a: Action, p: Pid)
    requires Enabled(s, a) && EndedEarly(s, p)
    ensures EndedEarly(Next(s, a), p)
  {
    hide Grant, Join, Release, SetMax, MayEnd;
    if a.Lock? {
      LockCases(s, a.p);
      hide Next, VictimIndex;
    }
  }

  /** Such a caller never queues, never holds a slot and never calls the work function; it can only return its context's error. */
  lemma {:induction false} EndedCallersDoNotStart(states: seq<State>, acts: seq<Action>, n: int, i: nat, k: nat, p: Pid)
    requires IsRun(states, acts, n) && i <= k < |states| && EndedEarly(states[i], p)
    ensures EndedEarly(states[k], p)
  {
    hide Next, Enabled, EndedEarly;
    if i < k {
      EndedCallersDoNotStart(states, acts, n, i, k - 1, p);
      EndedStaysEnded(states[k - 1], acts[k - 1], p);
    }
  }

  // --------------------------------------------------------- grants and limits

  /** A ticket that appears in a step belongs to the caller of that section, or to a queued caller whose context has not ended. */
  lemma GrantsGoToLiveCallers(s: State, a: Action, c: string, r: Runner)
    requires Inv(s) && Enabled(s, a)
    requires r in LaneOf(Next(s, a).sh, c).runners && r !in LaneOf(s.sh, c).runners
    ensures (a.Lock? && r.owner == a.p) || (InPhase(s, r.owner, Queued) && r.owner !in s.cancelled)
  {
    hide Next, Flights, Urgency, Outcomes, NoIdleSlot;
    var lane' := LaneOf(Next(s, a).sh, c);
    var mid := LaneStep(s, a, c);
    assert LaneOk(s, c, LaneOf(s.sh, c));
    if r in mid.runners {
      GrantedTicketIsQueued(s, a, c, mid, Next(s, a).sh.maxPerCluster, r);
    }
  }

  lemma GrantedTicketIsQueued(s: State, a: Action, c: string, mid: Lane, max: nat, r: Runner)
    requires LaneOk(s, c, LaneOf(s.sh, c)) && r in mid.runners && r !in LaneOf(s.sh, c).runners
    requires mid == Start(s, a, c) || GrantedFairly(Start(s, a, c), mid, max, s.sh.abandoned + s.cancelled)
    ensures InPhase(s, r.owner, Queued) && r.owner !in s.cancelled
  {
    var start := Start(s, a, c);
    if a.ReleaseSlot? {
      WithoutMembers(LaneOf(s.sh, c).runners, a.p);
    }
    assert r !in start.runners;
    var k :| 0 <= k < |mid.runners| && mid.runners[k] == r;
    assert forall i :: 0 <= i < |start.runners| ==> start.runners[i] in start.runners;
    assert CameFrom(r, start.waiters - mid.waiters, s.sh.abandoned + s.cancelled);
    var w :| w in start.waiters && w.owner !in s.sh.abandoned + s.cancelled && r == Promote(w);
    assert PlaceOk(s, c, w);
  }

  /** The step releases a slot or changes the limit, and so owes a broadcast. */
  predicate Incurs(a: Action, d: Debtor) {
    (a.ReleaseSlot? && d == ByCaller(a.p)) || (a.SetLimit? && d == ByLimit)
  }

  function Owing(acts: seq<Action>, d: Debtor): int {
    if acts == [] then 0
    else
      var a := acts[|acts| - 1];
      Owing(acts[..|acts| - 1], d) + (if Incurs(a, d) then 1 else 0) - if a == Broadcast(d) then 1 else 0
  }

  lemma OweStep(s: State, a: Action, d: Debtor)
    requires Enabled(s, a)
    ensures Next(s, a).owed[d] == s.owed[d] + (if Incurs(a, d) then 1 else 0) - if a == Broadcast(d) then 1 else 0
  {
    if a.Lock? {
      hide Grant, VictimIndex, Next;
      LockCases(s, a.p);
    } else {
      hide Grant, Join, Without, MayEnd;
    }
  }

  /** In every reachable state the broadcasts to come are those of the releases and limit changes that have not made theirs. */
  lemma {:induction false} BroadcastsAreOwed(states: seq<State>, acts: seq<Action>, n: int, i: nat, d: Debtor)
    requires IsRun(states, acts, n) && i < |states|
    ensures states[i].owed[d] == Owing(acts[..i], d)
  {
    hide Next, Enabled, Incurs;
    if i > 0 {
      BroadcastsAreOwed(states, acts, n, i - 1, d);
      OweStep(states[i - 1], acts[i - 1], d);
      assert acts[..i][..i - 1] == acts[..i - 1];
    } else {
      NothingOwed(n, d);
    }
  }

  lemma NothingOwed(n: int, d: Debtor)
    ensures Init(n).owed[d] == 0
  {
  }

  /** The limit asked for last: by SetLimit, or when the scheduler was made. */
  function AskedLimit(acts: seq<Action>, n: int): int {
    if acts == [] then n
    else if acts[|acts| - 1].SetLimit? then acts[|acts| - 1].n
    else AskedLimit(acts[..|acts| - 1], n)
  }

  /** A positive limit that is asked for is the limit in force until the next is asked for; any other means four. */
  lemma {:induction false} LimitInForce(states: seq<State>, acts: seq<Action>, n: int, i: nat)
    requires IsRun(states, acts, n) && i < |states|
    ensures var asked := AskedLimit(acts[..i], n);
            states[i].sh.maxPerCluster == if asked > 0 then asked else 4
  {
    hide Next, Enabled;
    if i > 0 {
      LimitInForce(states, acts, n, i - 1);
      assert acts[..i][..i - 1] == acts[..i - 1];
      LimitStep(states[i - 1], acts[i - 1]);
    } else {
      LimitAtStart(n);
    }
  }

  lemma LimitAtStart(n: int)
    ensures Init(n).sh.maxPerCluster == if n > 0 then n else 4
  {
  }

  lemma LimitStep(s: State, a: Action)
    requires Enabled(s, a)
    ensures a.SetLimit? ==> Next(s, a).sh.maxPerCluster == if a.n > 0 then a.n else 4
    ensures !a.SetLimit? ==> Next(s, a).sh.maxPerCluster == s.sh.maxPerCluster
  {
    if a.Lock? {
      LockKeepsLimit(s, a.p);
    } else {
      hide Grant, Join, Without;
    }
  }

  lemma LockKeepsLimit(s: State, p: Pid)
    requires Enabled(s, Lock(p))
    ensures Next(s, Lock(p)).sh.maxPerCluster == s.sh.maxPerCluster
  {
    hide Next, Grant, VictimIndex;
    LockCases(s, p);
  }
}
