/** What the scheduler promises over whole runs, from the step invariant of SchedulerRuns. */
module SchedulerTheorems {
  import opened Scheduler
  import opened SchedulerRuns
  import opened Retry

  ghost predicate IsRun(states: seq<State>, acts: seq<Action>, n: int) {
    && |states| == |acts| + 1
    && states[0] == Init(n)
    && (forall i :: 0 <= i < |acts| ==> Enabled(states[i], acts[i]) && states[i + 1] == Next(states[i], acts[i]))
  }

  lemma {:induction false} RunKeepsInv(states: seq<State>, acts: seq<Action>, n: int, i: nat)
    requires IsRun(states, acts, n) && i < |states|
    ensures Inv(states[i])
  {
    if i == 0 {
      InitHolds(n);
    } else {
      RunKeepsInv(states, acts, n, i - 1);
      InvKept(states[i - 1], acts[i - 1]);
    }
  }

  // ----------------------------------------------- single flight, slot limits

  /** No two executions of the work function for one key overlap. */
  lemma SingleFlight(states: seq<State>, acts: seq<Action>, n: int, i: nat, p: Pid, q: Pid)
    requires IsRun(states, acts, n) && i < |states|
    ensures InPhase(states[i], p, Calling) && InPhase(states[i], q, Calling) ==>
              p == q || states[i].procs[p].key != states[i].procs[q].key
  {
    RunKeepsInv(states, acts, n, i);
  }

  ghost function Executing(s: State, c: string): set<Pid> {
    set p | p in s.procs && s.procs[p].phase == Calling && s.procs[p].key.cluster == c
  }

  lemma {:induction false} OwnersCount(runners: seq<Runner>)
    ensures |set r <- runners :: r.owner| <= |runners|
  {
    if runners != [] {
      var rest := runners[1..];
      OwnersCount(rest);
      assert runners == [runners[0]] + rest;
      assert (set r <- runners :: r.owner) == (set r <- rest :: r.owner) + {runners[0].owner};
    }
  }

  lemma {:induction false} SubsetCount<T>(a: set<T>, b: set<T>)
    requires a <= b
    ensures |a| <= |b|
  {
    if a != {} {
      var x :| x in a;
      SubsetCount(a - {x}, b - {x});
    }
  }

  /** Every execution holds a ticket of its cluster's lane, so executions never outnumber runners. */
  lemma ExecutionsAreBounded(states: seq<State>, acts: seq<Action>, n: int, i: nat, c: string)
    requires IsRun(states, acts, n) && i < |states|
    ensures Executing(states[i], c) <= Owners(LaneOf(states[i].sh, c))
    ensures |Executing(states[i], c)| <= |LaneOf(states[i].sh, c).runners|
  {
    var s := states[i];
    RunKeepsInv(states, acts, n, i);
    forall p | p in Executing(s, c) ensures p in Owners(LaneOf(s.sh, c)) {
      assert HasTicket(s, p);
    }
    OwnersCount(LaneOf(s.sh, c).runners);
    SubsetCount(Executing(s, c), Owners(LaneOf(s.sh, c)));
  }

  /** A step that adds runners to a lane stays within the limit in force after it, even when it is the limit that changes. */
  lemma LimitIsRespected(s: State, a: Action, c: string)
    requires Inv(s) && Enabled(s, a)
    ensures |LaneOf(Next(s, a).sh, c).runners| > |LaneOf(s.sh, c).runners| ==>
              |LaneOf(Next(s, a).sh, c).runners| <= Next(s, a).sh.maxPerCluster
  {
    hide Next, Inv;
    var _ := LaneStep(s, a, c);
  }

  /** A lane never has both a free slot and someone waiting for one. */
  lemma WorkIsConserved(states: seq<State>, acts: seq<Action>, n: int, i: nat, c: string)
    requires IsRun(states, acts, n) && i < |states|
    ensures var lane := LaneOf(states[i].sh, c);
            |lane.runners| >= states[i].sh.maxPerCluster || lane.waiters == {}
  {
    RunKeepsInv(states, acts, n, i);
    assert Conserved(LaneOf(states[i].sh, c), states[i].sh.maxPerCluster);
  }

  // ------------------------------------------------------------ how lanes move

  function Start(s: State, a: Action, c: string): Lane {
    var lane := LaneOf(s.sh, c);
    if a.ReleaseSlot? && a.p in s.procs && s.procs[a.p].key.cluster == c
    then lane.(runners := Without(lane.runners, a.p)) else lane
  }

  /** A lane as one step leaves it: at most the releaser's ticket goes, then grants, then at most the locker enters. */
  ghost predicate LaneMoved(s: State, a: Action, c: string, mid: Lane, lane': Lane, max: nat) {
    var start := Start(s, a, c);
    && (mid == start || GrantedFairly(start, mid, max, s.sh.abandoned + s.cancelled))
    && (lane' == mid || (a.Lock? && a.p in s.procs && s.procs[a.p].key.cluster == c &&
          var me := s.procs[a.p];
          || (lane' == mid.(runners := mid.runners + [Runner(a.p, me.key)]) && |mid.runners| < max)
          || lane' == mid.(seqNo := mid.seqNo + 1, waiters := mid.waiters + {Waiter(a.p, me.priority, mid.seqNo + 1, me.key)})))
  }

  lemma LaneStep(s: State, a: Action, c: string) returns (mid: Lane)
    requires Enabled(s, a)
    ensures LaneMoved(s, a, c, mid, LaneOf(Next(s, a).sh, c), Next(s, a).sh.maxPerCluster)
  {
    mid := LaneOf(Next(s, a).sh, c);
    match a
    case Lock(p) => mid := LockLane(s, p, c);
    case ReleaseSlot(p) => GrantingLane(s, a, c);
    case SetLimit(n) => GrantingLane(s, a, c);
    case _ => QuietLane(s, a, c);
  }

  lemma LockLane(s: State, p: Pid, c: string) returns (mid: Lane)
    requires Enabled(s, Lock(p))
    ensures LaneMoved(s, Lock(p), c, mid, LaneOf(Next(s, Lock(p)).sh, c), Next(s, Lock(p)).sh.maxPerCluster)
  {
    hide Grant, VictimIndex, Next;
    var lane := LaneOf(s.sh, c);
    var gone := s.sh.abandoned + s.cancelled;
    LockCases(s, p);
    if c == s.procs[p].key.cluster {
      GrantIsFair(lane, s.sh.maxPerCluster, gone);
      mid := Grant(lane, s.sh.maxPerCluster, gone);
    } else {
      mid := lane;
    }
  }

  lemma GrantingLane(s: State, a: Action, c: string)
    requires Enabled(s, a) && (a.ReleaseSlot? || a.SetLimit?)
    ensures LaneMoved(s, a, c, LaneOf(Next(s, a).sh, c), LaneOf(Next(s, a).sh, c), Next(s, a).sh.maxPerCluster)
  {
    hide Grant;
    var lane := LaneOf(s.sh, c);
    var gone := s.sh.abandoned + s.cancelled;
    match a
    case ReleaseSlot(p) =>
      if c == s.procs[p].key.cluster {
        GrantIsFair(lane.(runners := Without(lane.runners, p)), s.sh.maxPerCluster, gone);
      }
    case SetLimit(n) =>
      GrantIsFair(lane, NormalizedMax(n), gone);
  }

  lemma QuietLane(s: State, a: Action, c: string)
    requires Enabled(s, a) && !a.Lock? && !a.ReleaseSlot? && !a.SetLimit?
    ensures LaneMoved(s, a, c, LaneOf(Next(s, a).sh, c), LaneOf(Next(s, a).sh, c), Next(s, a).sh.maxPerCluster)
  {
    hide Grant;
  }

  // ---------------------------------------------------------------- ordering

  /** A node that leaves the queue in some step was more urgent than each that stays, or as urgent and earlier. */
  lemma PoppedIsFirst(s: State, a: Action, c: string, v: Waiter, w: Waiter)
    requires Inv(s) && Enabled(s, a)
    requires v in LaneOf(s.sh, c).waiters && w in LaneOf(s.sh, c).waiters
    ensures v !in LaneOf(Next(s, a).sh, c).waiters && w in LaneOf(Next(s, a).sh, c).waiters ==>
              v.priority < w.priority || (v.priority == w.priority && v.seqNo < w.seqNo)
  {
    hide Next;
    assert LaneOk(s, c, LaneOf(s.sh, c));
    var lane' := LaneOf(Next(s, a).sh, c);
    var mid := LaneStep(s, a, c);
    if v !in lane'.waiters && w in lane'.waiters {
      PoppedInLane(s, a, c, mid, lane', Next(s, a).sh.maxPerCluster, v, w);
    }
  }

  lemma PoppedInLane(s: State, a: Action, c: string, mid: Lane, lane': Lane, max: nat, v: Waiter, w: Waiter)
    requires TidyLane(LaneOf(s.sh, c)) && LaneMoved(s, a, c, mid, lane', max)
    requires v in LaneOf(s.sh, c).waiters && v !in lane'.waiters
    requires w in LaneOf(s.sh, c).waiters && w in lane'.waiters
    ensures Less(v, w)
  {
    assert w in mid.waiters && v !in mid.waiters;
  }

  /** New nodes get numbers above every earlier one of the lane. */
  ghost predicate NumbersGrew(lane: Lane, lane': Lane) {
    && lane'.seqNo >= lane.seqNo
    && forall w <- lane'.waiters :: w in lane.waiters || w.seqNo > lane.seqNo
  }

  lemma NumbersGrow(s: State, a: Action, c: string)
    requires Enabled(s, a)
    ensures NumbersGrew(LaneOf(s.sh, c), LaneOf(Next(s, a).sh, c))
  {
    var _ := LaneStep(s, a, c);
  }

  lemma RunNumbersGrow(states: seq<State>, acts: seq<Action>, n: int, c: string, k: nat)
    requires IsRun(states, acts, n) && k < |acts|
    ensures NumbersGrew(LaneOf(states[k].sh, c), LaneOf(states[k + 1].sh, c))
  {
    NumbersGrow(states[k], acts[k], c);
  }

  lemma {:induction false} GrowthChains(lanes: seq<Lane>, i: nat, k: nat)
    requires i <= k < |lanes|
    requires forall j :: 0 <= j < |lanes| - 1 ==> NumbersGrew(lanes[j], lanes[j + 1])
    ensures NumbersGrew(lanes[i], lanes[k])
  {
    if i < k {
      GrowthChains(lanes, i, k - 1);
      assert NumbersGrew(lanes[k - 1], lanes[k - 1 + 1]);
    }
  }

  lemma LaterNumbersAreLarger(states: seq<State>, acts: seq<Action>, n: int, c: string, i: nat, k: nat)
    requires IsRun(states, acts, n) && i <= k < |states|
    ensures NumbersGrew(LaneOf(states[i].sh, c), LaneOf(states[k].sh, c))
  {
    var lanes := seq(|states|, j requires 0 <= j < |states| => LaneOf(states[j].sh, c));
    forall j | 0 <= j < |lanes| - 1 ensures NumbersGrew(lanes[j], lanes[j + 1]) {
      RunNumbersGrow(states, acts, n, c, j);
    }
    GrowthChains(lanes, i, k);
  }

  /**
   A queued caller is overtaken only by strictly more urgent ones: a node that joins the
   queue after `w` and leaves it while `w` still waits has a strictly better priority.
   So callers of one priority get their slots in the order in which they queued up.
  */
  lemma NoOvertaking(states: seq<State>, acts: seq<Action>, n: int, c: string, i: nat, k: nat, v: Waiter, w: Waiter)
    requires IsRun(states, acts, n) && i <= k < |acts|
    requires w in LaneOf(states[i].sh, c).waiters && w in LaneOf(states[k + 1].sh, c).waiters
    requires v !in LaneOf(states[i].sh, c).waiters
    requires v in LaneOf(states[k].sh, c).waiters && v !in LaneOf(states[k + 1].sh, c).waiters
    ensures v.priority < w.priority
  {
    RunKeepsInv(states, acts, n, i);
    RunKeepsInv(states, acts, n, k);
    assert LaneOk(states[i], c, LaneOf(states[i].sh, c));
    LaterNumbersAreLarger(states, acts, n, c, i, k);
    NumbersGrow(states[k], acts[k], c);
    PoppedIsFirst(states[k], acts[k], c, v, w);
  }

  /** A caller that was not queued takes a slot only when its lane has no queued node at all. */
  lemma NoQueueJumping(s: State, p: Pid)
    requires Inv(s) && Enabled(s, Lock(p))
    ensures InPhase(Next(s, Lock(p)), p, Holding) ==> LaneOf(Next(s, Lock(p)).sh, s.procs[p].key.cluster).waiters == {}
  {
    var c := s.procs[p].key.cluster;
    LockCases(s, p);
    GrantIsFair(LaneOf(s.sh, c), s.sh.maxPerCluster, s.sh.abandoned + s.cancelled);
  }

  // -------------------------------------------------------------- preemption

  ghost predicate JoinedWorse(s: State, f: Pid, need: Priority) {
    forall q <- s.procs :: s.procs[q].flight == f ==> s.procs[q].priority > need
  }

  /** The lane a caller finds once the grants of its section are made. */
  ghost function LaneFound(s: State, p: Pid): Lane
    requires p in s.procs
  {
    LaneOf(AfterGrants(s, s.procs[p].key.cluster).sh, s.procs[p].key.cluster)
  }

  /** Comparing with a runner's effective priority is comparing with everyone who joined its flight. */
  lemma EffectiveMeansJoined(s: State, p: Pid)
    requires Inv(s) && p in s.procs
    ensures forall r <- LaneFound(s, p).runners, need ::
              JoinedWorse(s, r.owner, need) <==> EffOf(s.sh, r.owner) > need
  {
    var c := s.procs[p].key.cluster;
    GrantKeepsSlots(s, c);
    assert LaneOk(AfterGrants(s, c), c, LaneFound(s, p));
    forall r, need | r in LaneFound(s, p).runners
      ensures JoinedWorse(s, r.owner, need) <==> EffOf(s.sh, r.owner) > need
    {
      assert TicketOk(AfterGrants(s, c), c, r);
      SlotOwnersLead(s, r.owner);
    }
  }

  ghost predicate ChosenVictim(s: State, p: Pid, r: Runner)
    requires p in s.procs
  {
    && r in LaneFound(s, p).runners
    && JoinedWorse(s, r.owner, s.procs[p].priority)
    && forall o <- LaneFound(s, p).runners :: EffOf(s.sh, o.owner) <= EffOf(s.sh, r.owner)
  }

  lemma LockParks(s: State, p: Pid)
    requires Enabled(s, Lock(p))
    ensures var v := VictimIndex(LaneFound(s, p).runners, s.sh, s.procs[p].priority);
            var parks := |LaneFound(s, p).runners| >= s.sh.maxPerCluster && v >= 0;
            && (InPhase(Next(s, Lock(p)), p, Parked) <==> parks)
            && Next(s, Lock(p)).stopped == if parks then s.stopped + {LaneFound(s, p).runners[v].owner} else s.stopped
  {
    LockCases(s, p);
  }

  /**
   A caller that finds its lane full asks a runner to stop if and only if some runner's
   flight was joined only by less urgent callers.
  */
  lemma PreemptsExactlyWhenWorse(s: State, p: Pid)
    requires Inv(s) && Enabled(s, Lock(p))
    ensures InPhase(Next(s, Lock(p)), p, Parked) <==>
              && |LaneFound(s, p).runners| >= s.sh.maxPerCluster
              && exists r <- LaneFound(s, p).runners :: JoinedWorse(s, r.owner, s.procs[p].priority)
  {
    LockParks(s, p);
    EffectiveMeansJoined(s, p);
    VictimMeansWorst(s, p);
  }

  /**
   The one runner asked to stop has the worst effective priority of the lane, and nobody
   who ever joined its flight is as urgent as the caller.
  */
  lemma PreemptionIsSafe(s: State, p: Pid)
    requires Inv(s) && Enabled(s, Lock(p))
    ensures Next(s, Lock(p)).stopped != s.stopped ==>
              exists r :: ChosenVictim(s, p, r) && Next(s, Lock(p)).stopped == s.stopped + {r.owner}
  {
    LockParks(s, p);
    EffectiveMeansJoined(s, p);
    VictimMeansWorst(s, p);
  }

  lemma VictimMeansWorst(s: State, p: Pid)
    requires p in s.procs
    requires forall r <- LaneFound(s, p).runners, need :: JoinedWorse(s, r.owner, need) <==> EffOf(s.sh, r.owner) > need
    ensures var runners, need := LaneFound(s, p).runners, s.procs[p].priority;
            var v := VictimIndex(runners, s.sh, need);
            && (v >= 0 <==> exists r <- runners :: JoinedWorse(s, r.owner, need))
            && (v >= 0 ==> ChosenVictim(s, p, runners[v]))
  {
    var runners, need := LaneFound(s, p).runners, s.procs[p].priority;
    var v := VictimIndex(runners, s.sh, need);
    if v < 0 {
      forall r | r in runners ensures !JoinedWorse(s, r.owner, need) {
        var i :| 0 <= i < |runners| && runners[i] == r;
        assert EffOf(s.sh, runners[i].owner) <= need;
      }
    } else {
      assert JoinedWorse(s, runners[v].owner, need);
    }
  }

  /** Whoever holds or waits for a slot, or gave one up, leads its own flight, whose priority is its members' best. */
  lemma SlotOwnersLead(s: State, p: Pid)
    requires Inv(s) && p in s.procs
    requires s.procs[p].phase == Queued || SlotPhase(s.procs[p].phase) || p in s.sh.abandoned
    ensures s.procs[p].flight == p && EffIsBest(s, p)
  {
    assert KnowsLeader(s, p) && EffIsBest(s, s.procs[p].flight);
    assert p in s.sh.abandoned ==> GaveUpOk(s, p);
  }

  // ----------------------------------------------------------- shared outcome

  /** A follower that waits to the end returns exactly what its leader returned. */
  lemma OutcomeIsShared(states: seq<State>, acts: seq<Action>, n: int, i: nat, q: Pid)
    requires IsRun(states, acts, n) && i < |states|
    requires q in states[i].procs && states[i].procs[q].phase.Returned?
    ensures var s := states[i]; var f := s.procs[q].flight;
            && f in s.procs && s.procs[f].flight == f && s.procs[f].key == s.procs[q].key
            && s.procs[f].phase == s.procs[q].phase
  {
    RunKeepsInv(states, acts, n, i);
    assert KnowsLeader(states[i], q) && OutcomeOk(states[i], q);
  }

  // ---------------------------------------------------------- ticket ownership

  /** The tickets no one will ever release: their callers gave up although the slot had been granted. */
  ghost predicate Leaked(s: State, c: string, r: Runner) {
    r in LaneOf(s.sh, c).runners && r.owner in s.sh.abandoned
  }

  ghost predicate NoLeak(s: State) {
    forall c, r :: !Leaked(s, c, r)
  }

  ghost predicate DropsGrant(s: State, a: Action) {
    a.GiveUp? && HasTicket(s, a.p)
  }

  /** Tickets and callers match one to one, except for leaked tickets. */
  lemma TicketsHaveOwners(states: seq<State>, acts: seq<Action>, n: int, i: nat, c: string)
    requires IsRun(states, acts, n) && i < |states|
    ensures DistinctOwners(LaneOf(states[i].sh, c).runners)
    ensures forall r <- LaneOf(states[i].sh, c).runners ::
              && r.owner in states[i].procs && states[i].procs[r.owner].key == r.key
              && (Leaked(states[i], c, r) <==> states[i].procs[r.owner].phase != Queued && !SlotPhase(states[i].procs[r.owner].phase))
    ensures forall p <- states[i].procs :: p !in states[i].sh.abandoned ==>
              (states[i].procs[p].phase != Queued && !SlotPhase(states[i].procs[p].phase) ==>
                p !in Owners(LaneOf(states[i].sh, c)))
  {
    hide IsRun, Flights, NoIdleSlot, Urgency, Outcomes;
    var s := states[i];
    RunKeepsInv(states, acts, n, i);
    assert LaneOk(s, c, LaneOf(s.sh, c));
    forall r | r in LaneOf(s.sh, c).runners ensures TicketOk(s, c, r) && (r.owner in s.sh.abandoned ==> GaveUpOk(s, r.owner)) {
    }
    forall p | p in s.procs && p !in s.sh.abandoned && s.procs[p].phase != Queued && !SlotPhase(s.procs[p].phase)
      ensures p !in Owners(LaneOf(s.sh, c))
    {
      NotSlottedIsOutside(s, p);
    }
  }

  lemma LeakStep(s: State, a: Action)
    requires Inv(s) && Enabled(s, a) && NoLeak(s)
    ensures NoLeak(Next(s, a)) <==> !DropsGrant(s, a)
  {
    var s' := Next(s, a);
    if DropsGrant(s, a) {
      assert Leaked(s', s.procs[a.p].key.cluster, Runner(a.p, s.procs[a.p].key));
    } else {
      forall c, r ensures !Leaked(s', c, r) {
        TicketsStayOwned(s, a, c, r);
      }
    }
  }

  lemma TicketsStayOwned(s: State, a: Action, c: string, r: Runner)
    requires Inv(s) && Enabled(s, a) && NoLeak(s) && !DropsGrant(s, a)
    ensures !Leaked(Next(s, a), c, r)
  {
    var lane' := LaneOf(Next(s, a).sh, c);
    assert LaneOk(s, c, LaneOf(s.sh, c)) && !Leaked(s, c, r);
    AbandonedByGivingUp(s, a);
    if r in lane'.runners {
      if r in LaneOf(s.sh, c).runners {
        assert TicketOk(s, c, r);
      } else {
        var mid := LaneStep(s, a, c);
        NewTicketIsLive(s, a, c, mid, lane', Next(s, a).sh.maxPerCluster, r);
        assert !a.GiveUp?;
      }
    }
  }

  lemma AbandonedByGivingUp(s: State, a: Action)
    requires Enabled(s, a)
    ensures Next(s, a).sh.abandoned == if a.GiveUp? then s.sh.abandoned + {a.p} else s.sh.abandoned
    ensures a.GiveUp? ==> Next(s, a).sh.lanes == s.sh.lanes
  {
    if a.Lock? {
      hide Grant, VictimIndex;
      LockCases(s, a.p);
    } else {
      OtherAbandons(s, a);
    }
  }

  lemma OtherAbandons(s: State, a: Action)
    requires Enabled(s, a) && !a.Lock?
    ensures Next(s, a).sh.abandoned == if a.GiveUp? then s.sh.abandoned + {a.p} else s.sh.abandoned
    ensures a.GiveUp? ==> Next(s, a).sh.lanes == s.sh.lanes
  {
    hide Grant, Without, MayEnd, HasTicket, LaneOf, ErrOf, Called;
  }

  lemma NewTicketIsLive(s: State, a: Action, c: string, mid: Lane, lane': Lane, max: nat, r: Runner)
    requires Inv(s) && Enabled(s, a) && LaneMoved(s, a, c, mid, lane', max)
    requires r in lane'.runners && r !in LaneOf(s.sh, c).runners
    ensures r.owner !in s.sh.abandoned
  {
    hide Flights, Urgency, Outcomes, NoIdleSlot, GrantedFairly;
    assert LaneOk(s, c, LaneOf(s.sh, c));
    if r in mid.runners {
      if a.ReleaseSlot? {
        WithoutMembers(LaneOf(s.sh, c).runners, a.p);
      }
      GrantedTicketIsLive(s, Start(s, a, c), mid, max, r);
    } else {
      assert r.owner == a.p && a.Lock?;
      assert a.p in s.sh.abandoned ==> GaveUpOk(s, a.p);
    }
  }

  lemma GrantedTicketIsLive(s: State, start: Lane, mid: Lane, max: nat, r: Runner)
    requires mid == start || GrantedFairly(start, mid, max, s.sh.abandoned + s.cancelled)
    requires r in mid.runners && r !in start.runners
    ensures r.owner !in s.sh.abandoned
  {
    var k :| 0 <= k < |mid.runners| && mid.runners[k] == r;
    assert forall i :: 0 <= i < |start.runners| ==> start.runners[i] in start.runners;
  }

  lemma LeakAt(states: seq<State>, acts: seq<Action>, n: int, k: nat)
    requires IsRun(states, acts, n) && k < |acts| && NoLeak(states[k])
    ensures NoLeak(states[k + 1]) <==> !DropsGrant(states[k], acts[k])
  {
    RunKeepsInv(states, acts, n, k);
    LeakStep(states[k], acts[k]);
  }

  lemma NoLeakAtStart(n: int)
    ensures NoLeak(Init(n))
  {
    forall c, r ensures !Leaked(Init(n), c, r) {}
  }

  /** Slots are lost in a run exactly when some caller takes its context's end over a slot it was already granted. */
  lemma {:induction false} LeakExactlyWhenGrantDropped(states: seq<State>, acts: seq<Action>, n: int, m: nat)
    requires IsRun(states, acts, n) && m < |states|
    ensures (forall i :: 0 <= i <= m ==> NoLeak(states[i])) <==> (forall i :: 0 <= i < m ==> !DropsGrant(states[i], acts[i]))
  {
    hide NoLeak, DropsGrant, Next, Enabled;
    if m == 0 {
      NoLeakAtStart(n);
    } else {
      LeakExactlyWhenGrantDropped(states, acts, n, m - 1);
      if NoLeak(states[m - 1]) {
        LeakAt(states, acts, n, m - 1);
      }
    }
  }
}
