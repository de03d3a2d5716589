/**
 The scheduler's critical sections as statements over its fields. Each is shown to do to
 the fields what the function of module Scheduler with its name says; the run theorems are
 about those functions.
*/
module SchedulerCode {
  import opened Scheduler
  import Heap = WaiterHeap

  /** A lane as it lies in memory: the waiters are a binary heap in a slice. */
  datatype LaneRep = LaneRep(runners: seq<Runner>, heap: seq<Waiter>, seqNo: nat)

  ghost function Abs(l: LaneRep): Lane {
    Lane(l.runners, (set w <- l.heap), l.seqNo)
  }

  /** Queue numbers are handed out once, so heap order is total. */
  ghost predicate LaneValid(l: LaneRep) {
    && Heap.IsHeap(l.heap)
    && (forall w :: multiset(l.heap)[w] <= 1)
    && (forall v, w :: v in l.heap && w in l.heap && v.seqNo == w.seqNo ==> v == w)
    && (forall w :: w in l.heap ==> w.seqNo <= l.seqNo)
  }

  lemma HeapNodes(h: seq<Waiter>, m: multiset<Waiter>)
    requires multiset(h) == m
    ensures forall w :: w in h <==> w in m
  {
    assert forall w :: w in h <==> w in multiset(h);
  }

  lemma PoppedIsLeast(l: LaneRep, w: Waiter, rest: seq<Waiter>)
    requires LaneValid(l) && l.heap != []
    requires multiset(l.heap) == multiset(rest) + multiset{w}
    requires forall v <- l.heap :: Heap.AtMost(w, v)
    ensures Abs(l).waiters != {} && w == Least(Abs(l).waiters)
    ensures Abs(l.(heap := rest)).waiters == Abs(l).waiters - {w}
  {
    HeapNodes(l.heap, multiset(rest) + multiset{w});
    assert multiset(l.heap)[w] <= 1;
    HeapNodes(rest, multiset(rest));
    assert w in Abs(l).waiters;
    var m := Least(Abs(l).waiters);
    assert !Less(w, m) && !Less(m, w);
  }

  ghost function AbsLanes(lanes: map<string, LaneRep>): map<string, Lane> {
    map c <- lanes :: Abs(lanes[c])
  }

  lemma LanesSet(lanes: map<string, LaneRep>, c: string, l: LaneRep)
    ensures AbsLanes(lanes[c := l]) == AbsLanes(lanes)[c := Abs(l)]
  {
  }

  /** The lanes outside `todo` have had their grants made. */
  ghost predicate Regranted(before: map<string, LaneRep>, now: map<string, LaneRep>, todo: set<string>, max: nat, gone: set<Pid>) {
    && now.Keys == before.Keys
    && (forall c <- now :: LaneValid(now[c]))
    && (forall c <- before :: if c in todo then now[c] == before[c] else Abs(now[c]) == Grant(Abs(before[c]), max, gone))
  }

  lemma RegrantedOne(before: map<string, LaneRep>, now: map<string, LaneRep>, todo: set<string>, max: nat, gone: set<Pid>,
                     c: string, lane: LaneRep)
    requires Regranted(before, now, todo, max, gone) && c in todo && c in now
    requires LaneValid(lane) && Abs(lane) == Grant(Abs(now[c]), max, gone)
    ensures Regranted(before, now[c := lane], todo - {c}, max, gone)
  {
    hide LaneValid, Abs, Grant;
  }

  lemma AllRegranted(before: map<string, LaneRep>, now: map<string, LaneRep>, max: nat, gone: set<Pid>)
    requires Regranted(before, now, {}, max, gone)
    ensures AbsLanes(now) == map c <- AbsLanes(before) :: Grant(AbsLanes(before)[c], max, gone)
  {
  }

  lemma PushedNode(l: LaneRep, me: Waiter, heap: seq<Waiter>)
    requires LaneValid(l) && Heap.IsHeap(heap) && me.seqNo == l.seqNo + 1
    requires multiset(heap) == multiset(l.heap) + multiset{me}
    ensures LaneValid(l.(seqNo := l.seqNo + 1, heap := heap))
    ensures Abs(l.(heap := heap)).waiters == Abs(l).waiters + {me}
  {
    HeapNodes(heap, multiset(l.heap) + multiset{me});
    HeapNodes(l.heap, multiset(l.heap));
    assert me !in l.heap;
    assert multiset(l.heap)[me] == 0;
  }

  lemma {:induction false} WithoutAt(runners: seq<Runner>, p: Pid, i: nat)
    requires i <= |runners| && forall k :: 0 <= k < i ==> runners[k].owner != p
    requires i < |runners| ==> runners[i].owner == p
    ensures Without(runners, p) == if i == |runners| then runners else runners[..i] + runners[i + 1..]
  {
    if i > 0 {
      WithoutAt(runners[1..], p, i - 1);
    }
  }

  method RemoveTicket(runners: seq<Runner>, p: Pid) returns (r: seq<Runner>)
    ensures r == Without(runners, p)
  {
    var i := 0;
    while i < |runners| && runners[i].owner != p
      invariant 0 <= i <= |runners|
      invariant forall k :: 0 <= k < i ==> runners[k].owner != p
    {
      i := i + 1;
    }
    WithoutAt(runners, p, i);
    r := if i == |runners| then runners else runners[..i] + runners[i + 1..];
  }

  class WorkScheduler {
    var inFlight: map<WorkKey, Pid>
    var eff: map<Pid, Priority>
    var lanes: map<string, LaneRep>
    var abandoned: set<Pid>
    var maxPerCluster: nat

    ghost function View(): Shared
      reads this
    {
      Shared(inFlight, eff, AbsLanes(lanes), abandoned, maxPerCluster)
    }

    ghost predicate Valid()
      reads this
    {
      forall c <- lanes :: LaneValid(lanes[c])
    }

    constructor (n: int)
      ensures Valid()
      ensures View() == Shared(map[], map[], map[], {}, NormalizedMax(n))
    {
      inFlight, eff, lanes, abandoned := map[], map[], map[], {};
      maxPerCluster := if n <= 0 then 4 else n;
    }

    function CurrentLane(cluster: string): LaneRep
      reads this
    {
      if cluster in lanes then lanes[cluster] else LaneRep([], [], 0)
    }

    lemma LaneView(cluster: string)
      requires Valid()
      ensures Abs(CurrentLane(cluster)) == LaneOf(View(), cluster) && LaneValid(CurrentLane(cluster))
    {
    }

    /** grantNextWaitersLocked. */
    method GrantNextWaiters(lane: LaneRep, gone: set<Pid>) returns (r: LaneRep)
      requires LaneValid(lane)
      ensures LaneValid(r)
      ensures Abs(r) == Grant(Abs(lane), maxPerCluster, gone)
    {
      r := lane;
      while |r.runners| < maxPerCluster && |r.heap| > 0
        invariant LaneValid(r)
        invariant Grant(Abs(r), maxPerCluster, gone) == Grant(Abs(lane), maxPerCluster, gone)
        decreases |r.heap|
      {
        var w, rest := Heap.Pop(r.heap);
        PoppedIsLeast(r, w, rest);
        assert r.heap[0] in Abs(r).waiters;
        HeapNodes(r.heap, multiset(rest) + multiset{w});
        HeapNodes(rest, multiset(rest));
        assert forall v :: multiset(rest)[v] <= multiset(r.heap)[v];
        assert |multiset(r.heap)| == |multiset(rest)| + 1;
        r := r.(heap := rest);
        if w.owner !in gone {
          r := r.(runners := r.runners + [Promote(w)]);
        }
      }
      if r.heap == [] {
        assert Abs(r).waiters == {};
      }
    }

    /** findPreemptVictim. */
    method FindPreemptVictim(runners: seq<Runner>, need: Priority) returns (best: int)
      ensures best == VictimIndex(runners, View(), need)
    {
      best := -1;
      for i := 0 to |runners|
        invariant best == VictimIndex(runners[..i], View(), need)
      {
        assert runners[..i + 1][..i] == runners[..i];
        var o := runners[i].owner;
        var ep := if o in eff then eff[o] else 0;
        if ep > need {
          if best == -1 || ep > (var b := runners[best].owner; if b in eff then eff[b] else 0) {
            best := i;
          }
        }
      }
      assert runners[..|runners|] == runners;
    }

    /** Run's first section. */
    method JoinFlight(p: Pid, prio: Priority, key: WorkKey) returns (leader: Pid)
      requires Valid()
      modifies `inFlight, `eff
      ensures Valid()
      ensures View() == Join(old(View()), p, prio, key)
      ensures leader == if key in old(inFlight) then old(inFlight[key]) else p
    {
      if key in inFlight {
        leader := inFlight[key];
        var cur := if leader in eff then eff[leader] else 0;
        if prio < cur {
          eff := eff[leader := prio];
        }
      } else {
        leader := p;
        eff := eff[p := prio];
        inFlight := inFlight[key := p];
      }
    }

    /** acquireSlot's section between the lock and the unlock or cond.Wait. */
    method EnterLane(p: Pid, prio: Priority, key: WorkKey, cancelled: set<Pid>) returns (d: Decision)
      requires Valid()
      modifies `lanes
      ensures Valid()
      ensures (View(), d) == Enter(old(View()), p, prio, key, cancelled)
    {
      LaneView(key.cluster);
      var lane := GrantNextWaiters(CurrentLane(key.cluster), abandoned + cancelled);
      if |lane.runners| < maxPerCluster {
        lane := lane.(runners := lane.runners + [Runner(p, key)]);
        d := TookSlot;
      } else {
        var idx := FindPreemptVictim(lane.runners, prio);
        if idx >= 0 {
          d := Preempts(lane.runners[idx].owner);
        } else {
          var me := Waiter(p, prio, lane.seqNo + 1, key);
          var heap := Heap.Push(lane.heap, me);
          PushedNode(lane, me, heap);
          lane := lane.(seqNo := lane.seqNo + 1, heap := heap);
          d := Enqueued;
        }
      }
      assert LaneValid(lane);
      LanesSet(lanes, key.cluster, lane);
      lanes := lanes[key.cluster := lane];
    }

    /** The Done branch of acquireSlot's select. */
    method Abandon(p: Pid)
      requires Valid()
      modifies `abandoned
      ensures Valid()
      ensures View() == old(View()).(abandoned := old(abandoned) + {p})
    {
      abandoned := abandoned + {p};
    }

    method ReleaseSlot(cluster: string, p: Pid, cancelled: set<Pid>)
      requires Valid()
      modifies `lanes
      ensures Valid()
      ensures View() == Release(old(View()), p, cluster, cancelled)
    {
      LaneView(cluster);
      var lane := CurrentLane(cluster);
      var runners := RemoveTicket(lane.runners, p);
      lane := GrantNextWaiters(lane.(runners := runners), abandoned + cancelled);
      LanesSet(lanes, cluster, lane);
      lanes := lanes[cluster := lane];
    }

    /** Run's deferred delete. */
    method EndFlight(key: WorkKey)
      requires Valid()
      modifies `inFlight
      ensures Valid()
      ensures View() == old(View()).(inFlight := old(inFlight) - {key})
    {
      inFlight := inFlight - {key};
    }

    /** Go visits the lanes in any order; no lane's grants depend on another's. */
    method SetMaxPerCluster(n: int, cancelled: set<Pid>)
      requires Valid()
      modifies `maxPerCluster, `lanes
      ensures Valid()
      ensures View() == SetMax(old(View()), n, cancelled)
    {
      hide LaneValid, Abs, Grant;
      maxPerCluster := if n <= 0 then 4 else n;
      ghost var before := lanes;
      ghost var gone := abandoned + cancelled;
      var todo := lanes.Keys;
      while todo != {}
        invariant todo <= before.Keys && Regranted(before, lanes, todo, maxPerCluster, gone)
        invariant maxPerCluster == NormalizedMax(n) && inFlight == old(inFlight) && eff == old(eff) && abandoned == old(abandoned)
        decreases todo
      {
        var c :| c in todo;
        var lane := GrantNextWaiters(lanes[c], abandoned + cancelled);
        RegrantedOne(before, lanes, todo, maxPerCluster, gone, c, lane);
        lanes := lanes[c := lane];
        todo := todo - {c};
      }
      AllRegranted(before, lanes, maxPerCluster, gone);
      assert View().lanes == SetMax(old(View()), n, cancelled).lanes;
    }
  }
}
