/**
 The shared state of the per-cluster work scheduler and what each critical section
 under its mutex does to it. The functions say what a critical section means; module
 SchedulerCode has the statements and SchedulerRuns the interleavings.

 A call of Run is named by a number, its `Pid`. A leader's Pid also names its inFlight
 record, its slot ticket and its waiter node: a leader gets at most one of each.
*/
module Scheduler {

  type Pid = nat
  type Priority = int // smaller is more urgent

  datatype WorkKey = WorkKey(cluster: string, workClass: string, kind: string, namespace: string)

  datatype Runner = Runner(owner: Pid, key: WorkKey)

  datatype Waiter = Waiter(owner: Pid, priority: Priority, seqNo: nat, key: WorkKey)

  /** `waiters` holds the nodes of the lane's heap; how the heap lays them out is module WaiterHeap's business. */
  datatype Lane = Lane(runners: seq<Runner>, waiters: set<Waiter>, seqNo: nat)

  /**
   `eff` gives the effective priority of every inFlight record ever made (a record outlives
   its entry in `inFlight`), and `abandoned` the waiter nodes with that flag set.
  */
  datatype Shared = Shared(
    inFlight: map<WorkKey, Pid>,
    eff: map<Pid, Priority>,
    lanes: map<string, Lane>,
    abandoned: set<Pid>,
    maxPerCluster: nat)

  const EmptyLane := Lane([], {}, 0)

  const DEFAULT_MAX_PER_CLUSTER: nat := 4

  function NormalizedMax(n: int): nat {
    if n <= 0 then DEFAULT_MAX_PER_CLUSTER else n
  }

  function LaneOf(sh: Shared, cluster: string): Lane {
    if cluster in sh.lanes then sh.lanes[cluster] else EmptyLane
  }

  function WithLane(sh: Shared, cluster: string, lane: Lane): Shared {
    sh.(lanes := sh.lanes[cluster := lane])
  }

  function Promote(w: Waiter): Runner {
    Runner(w.owner, w.key)
  }

  predicate Less(v: Waiter, w: Waiter) {
    if v.priority != w.priority then v.priority < w.priority else v.seqNo < w.seqNo
  }

  ghost predicate IsLeast(w: Waiter, ws: set<Waiter>) {
    w in ws && forall v <- ws :: !Less(v, w)
  }

  lemma {:induction false} LeastExists(ws: set<Waiter>)
    requires ws != {}
    ensures exists w :: IsLeast(w, ws)
    decreases ws
  {
    var v :| v in ws;
    var rest := ws - {v};
    assert ws == rest + {v};
    if rest == {} {
      assert IsLeast(v, ws);
    } else {
      LeastExists(rest);
      var w :| IsLeast(w, rest);
      assert IsLeast(if Less(v, w) then v else w, ws);
    }
  }

  /** What heap.Pop takes from the heap. */
  ghost function Least(ws: set<Waiter>): (w: Waiter)
    requires ws != {}
    ensures IsLeast(w, ws)
  {
    LeastExists(ws);
    var w :| IsLeast(w, ws);
    w
  }

  // ---------------------------------------------------------------- granting

  /** The grant loop: pop while a slot is free, skipping nodes whose caller is gone. */
  ghost function Grant(lane: Lane, max: nat, gone: set<Pid>): Lane
    decreases |lane.waiters|
  {
    if |lane.runners| < max && lane.waiters != {} then
      var w := Least(lane.waiters);
      var popped := lane.(waiters := lane.waiters - {w});
      Grant(if w.owner in gone then popped else popped.(runners := lane.runners + [Promote(w)]), max, gone)
    else
      lane
  }

  ghost function Owners(lane: Lane): set<Pid> {
    set r <- lane.runners :: r.owner
  }

  ghost function Queue(lane: Lane): set<Pid> {
    set w <- lane.waiters :: w.owner
  }

  ghost predicate DistinctOwners(runners: seq<Runner>) {
    forall i, j :: 0 <= i < j < |runners| ==> runners[i].owner != runners[j].owner
  }

  /** Every ticket and every queue place of a lane has its own caller, and queue numbers are fresh. */
  ghost predicate TidyLane(lane: Lane) {
    && DistinctOwners(lane.runners)
    && Owners(lane) !! Queue(lane)
    && (forall v, w :: v in lane.waiters && w in lane.waiters && v != w ==> v.owner != w.owner && v.seqNo != w.seqNo)
    && (forall w <- lane.waiters :: w.seqNo <= lane.seqNo)
  }

  ghost predicate Conserved(lane: Lane, max: nat) {
    |lane.runners| >= max || lane.waiters == {}
  }

  /** The runner is one of the popped nodes, of a caller that is still there. */
  ghost predicate CameFrom(r: Runner, popped: set<Waiter>, gone: set<Pid>) {
    exists w :: w in popped && w.owner !in gone && r == Promote(w)
  }

  /** How many slots, whose, and in which order: everything a run theorem needs of the grant loop. */
  ghost predicate GrantedFairly(lane: Lane, lane': Lane, max: nat, gone: set<Pid>) {
    && lane.runners <= lane'.runners
    && lane'.waiters <= lane.waiters
    && lane'.seqNo == lane.seqNo
    && Conserved(lane', max)
    && (|lane'.runners| > |lane.runners| ==> |lane'.runners| <= max)
    && (forall k :: |lane.runners| <= k < |lane'.runners| ==> CameFrom(lane'.runners[k], lane.waiters - lane'.waiters, gone))
    && (forall w :: w in lane.waiters && w !in lane'.waiters ==> w.owner in gone || Promote(w) in lane'.runners)
    && (forall v, w :: v in lane.waiters && v !in lane'.waiters && w in lane'.waiters ==> !Less(w, v))
  }

  lemma {:induction false} GrantIsFair(lane: Lane, max: nat, gone: set<Pid>)
    ensures GrantedFairly(lane, Grant(lane, max, gone), max, gone)
    decreases |lane.waiters|
  {
    if |lane.runners| < max && lane.waiters != {} {
      var w := Least(lane.waiters);
      var popped := lane.(waiters := lane.waiters - {w});
      var next := if w.owner in gone then popped else popped.(runners := lane.runners + [Promote(w)]);
      GrantIsFair(next, max, gone);
      var end := Grant(next, max, gone);
      if w.owner !in gone {
        assert next.runners[|lane.runners|] == Promote(w);
        assert end.runners[|lane.runners|] == Promote(w);
      }
      forall k | |lane.runners| <= k < |end.runners|
        ensures CameFrom(end.runners[k], lane.waiters - end.waiters, gone)
      {
        if w.owner in gone || k > |lane.runners| {
          assert CameFrom(end.runners[k], next.waiters - end.waiters, gone);
        }
      }
    }
  }

  lemma {:induction false} GrantKeepsTidy(lane: Lane, max: nat, gone: set<Pid>)
    requires TidyLane(lane)
    ensures TidyLane(Grant(lane, max, gone))
    decreases |lane.waiters|
  {
    if |lane.runners| < max && lane.waiters != {} {
      var w := Least(lane.waiters);
      assert w.owner in Queue(lane);
      var popped := lane.(waiters := lane.waiters - {w});
      var next := if w.owner in gone then popped else popped.(runners := lane.runners + [Promote(w)]);
      forall q | q in Queue(next) ensures q !in Owners(next) && q != w.owner {
        assert q in Queue(lane);
      }
      forall i | 0 <= i < |lane.runners| ensures lane.runners[i].owner != w.owner {
        assert lane.runners[i].owner in Owners(lane);
      }
      assert TidyLane(next);
      GrantKeepsTidy(next, max, gone);
    }
  }

  // -------------------------------------------------------------- preemption

  /** An inFlight record's effective priority; a record not made yet would read Go's zero value. */
  function EffOf(sh: Shared, p: Pid): Priority {
    if p in sh.eff then sh.eff[p] else 0
  }

  /** What findPreemptVictim promises: the first runner of the worst effective priority worse than `need`, or -1. */
  ghost predicate IsVictim(runners: seq<Runner>, sh: Shared, need: Priority, v: int) {
    if v == -1 then
      forall i :: 0 <= i < |runners| ==> EffOf(sh, runners[i].owner) <= need
    else
      && 0 <= v < |runners|
      && EffOf(sh, runners[v].owner) > need
      && (forall i :: 0 <= i < |runners| ==> EffOf(sh, runners[i].owner) <= EffOf(sh, runners[v].owner))
      && (forall i :: 0 <= i < v ==> EffOf(sh, runners[i].owner) < EffOf(sh, runners[v].owner))
  }

  function VictimIndex(runners: seq<Runner>, sh: Shared, need: Priority): (v: int)
    ensures IsVictim(runners, sh, need, v)
  {
    if runners == [] then -1 else
    var n := |runners| - 1;
    var v := VictimIndex(runners[..n], sh, need);
    var ep := EffOf(sh, runners[n].owner);
    if ep > need && (v == -1 || ep > EffOf(sh, runners[v].owner)) then n else v
  }

  // ------------------------------------------------------- critical sections

  /** Run's first section: join the call already in flight for this key, or become its leader. */
  function Join(sh: Shared, p: Pid, prio: Priority, key: WorkKey): Shared {
    if key in sh.inFlight then
      var f := sh.inFlight[key];
      if prio < EffOf(sh, f) then sh.(eff := sh.eff[f := prio]) else sh
    else
      sh.(inFlight := sh.inFlight[key := p], eff := sh.eff[p := prio])
  }

  datatype Decision = TookSlot | Preempts(victim: Pid) | Enqueued

  /** acquireSlot's section: grant what can be granted, then take a slot, preempt, or enqueue. */
  ghost function Enter(sh: Shared, p: Pid, prio: Priority, key: WorkKey, cancelled: set<Pid>): (Shared, Decision) {
    var lane := Grant(LaneOf(sh, key.cluster), sh.maxPerCluster, sh.abandoned + cancelled);
    if |lane.runners| < sh.maxPerCluster then
      (WithLane(sh, key.cluster, lane.(runners := lane.runners + [Runner(p, key)])), TookSlot)
    else
      var v := VictimIndex(lane.runners, sh, prio);
      if v >= 0 then
        (WithLane(sh, key.cluster, lane), Preempts(lane.runners[v].owner))
      else
        var me := Waiter(p, prio, lane.seqNo + 1, key);
        (WithLane(sh, key.cluster, lane.(waiters := lane.waiters + {me}, seqNo := lane.seqNo + 1)), Enqueued)
  }

  /** The first runner with the given ticket goes; tickets are distinct, so there is at most one. */
  function Without(runners: seq<Runner>, p: Pid): (r: seq<Runner>)
    ensures |r| <= |runners|
  {
    if runners == [] then []
    else if runners[0].owner == p then runners[1..]
    else [runners[0]] + Without(runners[1..], p)
  }

  lemma {:induction false} WithoutMembers(runners: seq<Runner>, p: Pid)
    requires DistinctOwners(runners)
    ensures DistinctOwners(Without(runners, p))
    ensures forall r :: r in Without(runners, p) <==> r in runners && r.owner != p
    ensures |Without(runners, p)| == |runners| - (if exists r <- runners :: r.owner == p then 1 else 0)
  {
    if runners != [] {
      var rest := runners[1..];
      if runners[0].owner == p {
        forall r | r in rest ensures r.owner != p {
          var k :| 0 <= k < |rest| && rest[k] == r;
          assert runners[k + 1] == r;
        }
      } else {
        WithoutMembers(rest, p);
        assert runners == [runners[0]] + rest;
        forall j | 0 <= j < |Without(rest, p)| ensures Without(rest, p)[j].owner != runners[0].owner {
          var r := Without(rest, p)[j];
          assert r in rest;
          var k :| 0 <= k < |rest| && rest[k] == r;
          assert runners[k + 1] == r;
        }
      }
    }
  }

  ghost function Release(sh: Shared, p: Pid, cluster: string, cancelled: set<Pid>): Shared {
    var lane := LaneOf(sh, cluster);
    WithLane(sh, cluster,
             Grant(lane.(runners := Without(lane.runners, p)), sh.maxPerCluster, sh.abandoned + cancelled))
  }

  ghost function SetMax(sh: Shared, n: int, cancelled: set<Pid>): Shared {
    var max := NormalizedMax(n);
    sh.(maxPerCluster := max,
        lanes := map c <- sh.lanes :: Grant(sh.lanes[c], max, sh.abandoned + cancelled))
  }
}
