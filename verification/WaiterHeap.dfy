/**
 The lane's waiter heap as it lies in its slice: waiterHeap's Less, Swap, Push and Pop
 under the up and down loops of Go's container/heap. Pushing and popping are shown to
 add one node and to take out a Less-least one.
*/
module WaiterHeap {
  import opened Scheduler

  ghost predicate AtMost(v: Waiter, w: Waiter) {
    !Less(w, v)
  }

  function Parent(i: int): int
    requires i > 0
  {
    (i - 1) / 2
  }

  /** No node precedes its parent. */
  ghost predicate IsHeap(h: seq<Waiter>) {
    forall i :: 0 < i < |h| ==> AtMost(h[Parent(i)], h[i])
  }

  /** A heap but for the node at `hole`, which may precede its parent while it rises. */
  ghost predicate Rising(h: seq<Waiter>, hole: int) {
    && (forall i :: 0 < i < |h| && i != hole ==> AtMost(h[Parent(i)], h[i]))
    && (forall i :: 0 < i < |h| && Parent(i) == hole && 0 < hole < |h| ==> AtMost(h[Parent(hole)], h[i]))
  }

  /** A heap but for the node at `hole`, which its children may precede while it sinks. */
  ghost predicate Sinking(h: seq<Waiter>, hole: int) {
    && (forall i :: 0 < i < |h| && Parent(i) != hole ==> AtMost(h[Parent(i)], h[i]))
    && (forall i :: 0 < i < |h| && Parent(i) == hole && 0 < hole < |h| ==> AtMost(h[Parent(hole)], h[i]))
  }

  lemma {:induction false} RootIsLeast(h: seq<Waiter>, i: nat)
    requires IsHeap(h) && i < |h|
    ensures AtMost(h[0], h[i])
  {
    if i > 0 {
      RootIsLeast(h, Parent(i));
    }
  }

  function Swapped(h: seq<Waiter>, i: nat, j: nat): (r: seq<Waiter>)
    requires i < |h| && j < |h|
    ensures multiset(r) == multiset(h)
  {
    var r := h[i := h[j]][j := h[i]];
    SwapKeepsNodes(h, i, j);
    r
  }

  lemma SwapKeepsNodes(h: seq<Waiter>, i: nat, j: nat)
    requires i < |h| && j < |h|
    ensures multiset(h[i := h[j]][j := h[i]]) == multiset(h)
  {
  }

  lemma RiseStep(h: seq<Waiter>, j: int)
    requires 0 < j < |h| && Rising(h, j) && Less(h[j], h[Parent(j)])
    ensures Rising(Swapped(h, Parent(j), j), Parent(j))
  {
    var i := Parent(j);
    var r := Swapped(h, i, j);
    forall k | 0 < k < |r| && k != i ensures AtMost(r[Parent(k)], r[k]) {
      if Parent(k) == i && k != j { assert AtMost(h[i], h[k]); }
    }
    forall k | 0 < k < |r| && Parent(k) == i && 0 < i ensures AtMost(r[Parent(i)], r[k]) {
      assert AtMost(h[Parent(i)], h[i]);
      if k != j { assert AtMost(h[i], h[k]); }
    }
  }

  lemma SinkStep(h: seq<Waiter>, i: int, j: int)
    requires 0 <= i < |h| && 0 < j < |h| && Parent(j) == i && Sinking(h, i) && Less(h[j], h[i])
    requires forall k :: 0 < k < |h| && Parent(k) == i ==> AtMost(h[j], h[k])
    ensures Sinking(Swapped(h, i, j), j)
  {
    var r := Swapped(h, i, j);
    forall k | 0 < k < |r| && Parent(k) != j ensures AtMost(r[Parent(k)], r[k]) {
      if k == i { assert AtMost(h[Parent(i)], h[j]); }
    }
    forall k | 0 < k < |r| && Parent(k) == j ensures AtMost(r[Parent(j)], r[k]) {
      assert AtMost(h[Parent(k)], h[k]);
    }
  }

  lemma SmallerChild(h: seq<Waiter>, i: nat, j: nat)
    requires i < j < |h| && (j == 2 * i + 1 || j == 2 * i + 2)
    requires if j == 2 * i + 1 then 2 * i + 2 < |h| ==> AtMost(h[j], h[2 * i + 2]) else Less(h[j], h[2 * i + 1])
    ensures Parent(j) == i
    ensures forall k :: 0 < k < |h| && Parent(k) == i ==> AtMost(h[j], h[k])
  {
    forall k | 0 < k < |h| && Parent(k) == i ensures AtMost(h[j], h[k]) {
      assert k == 2 * i + 1 || k == 2 * i + 2;
    }
  }

  lemma Settled(h: seq<Waiter>, i: nat, j: nat)
    requires i < |h| && j < |h| && Sinking(h, i) && AtMost(h[i], h[j])
    requires forall k :: 0 < k < |h| && Parent(k) == i ==> AtMost(h[j], h[k])
    ensures IsHeap(h)
  {
  }

  method Push(h: seq<Waiter>, x: Waiter) returns (r: seq<Waiter>)
    requires IsHeap(h)
    ensures IsHeap(r)
    ensures multiset(r) == multiset(h) + multiset{x}
  {
    r := h + [x];
    var j := |h|;
    while j > 0 && Less(r[j], r[Parent(j)])
      invariant 0 <= j < |r|
      invariant multiset(r) == multiset(h) + multiset{x}
      invariant Rising(r, j)
    {
      RiseStep(r, j);
      r := Swapped(r, Parent(j), j);
      j := Parent(j);
    }
  }

  /** The last node takes the root's place and sinks; what was the root leaves. */
  method Pop(h: seq<Waiter>) returns (least: Waiter, r: seq<Waiter>)
    requires IsHeap(h) && h != []
    ensures IsHeap(r)
    ensures multiset(h) == multiset(r) + multiset{least}
    ensures forall w <- h :: AtMost(least, w)
  {
    var n := |h| - 1;
    least := h[0];
    forall w | w in h ensures AtMost(h[0], w) {
      var i :| 0 <= i < |h| && h[i] == w;
      RootIsLeast(h, i);
    }
    assert Swapped(h, 0, n) == Swapped(h, 0, n)[..n] + [least];
    r := Swapped(h, 0, n)[..n];
    assert multiset(h) == multiset(r) + multiset{least};
    r := Sink(r);
  }

  method Sink(h: seq<Waiter>) returns (r: seq<Waiter>)
    requires Sinking(h, 0)
    ensures IsHeap(r) && multiset(r) == multiset(h)
  {
    r := h;
    var i := 0;
    while 2 * i + 1 < |r|
      invariant 0 <= i && |r| == |h| && (i < |r| || r == [])
      invariant multiset(r) == multiset(h)
      invariant Sinking(r, i)
      decreases |h| - i
    {
      var j := 2 * i + 1;
      if j + 1 < |r| && Less(r[j + 1], r[j]) {
        j := j + 1;
      }
      SmallerChild(r, i, j);
      if !Less(r[j], r[i]) {
        Settled(r, i, j);
        return;
      }
      SinkStep(r, i, j);
      r := Swapped(r, i, j);
      i := j;
    }
    assert forall k :: 0 < k < |r| ==> Parent(k) != i;
  }
}
