/** Byte strings in the order of bytes.Compare, and the ascending listing of a set of them. */
module Bytes {
  import opened Orders

  type Byte = b: int | 0 <= b < 256
  type Bytes = seq<Byte>

  predicate Before(a: Bytes, b: Bytes) {
    if b == [] then false
    else if a == [] then true
    else if a[0] != b[0] then a[0] < b[0]
    else Before(a[1..], b[1..])
  }

  /** The first byte that differs decides, and a proper prefix comes first. */
  lemma {:induction false} BeforeExactly(a: Bytes, b: Bytes)
    ensures Before(a, b) <==> exists n :: 0 <= n <= |a| && n < |b| && a[..n] == b[..n] && (n == |a| || a[n] < b[n])
  {
    if a != [] && b != [] && a[0] == b[0] {
      var x, y := a[1..], b[1..];
      BeforeExactly(x, y);
      if n :| 0 <= n <= |x| && n < |y| && x[..n] == y[..n] && (n == |x| || x[n] < y[n]) {
        assert a[..n + 1] == [a[0]] + x[..n] && b[..n + 1] == [b[0]] + y[..n];
      }
      if n :| 0 <= n <= |a| && n < |b| && a[..n] == b[..n] && (n == |a| || a[n] < b[n]) {
        assert n > 0 && x[..n - 1] == a[..n][1..] && y[..n - 1] == b[..n][1..];
      }
    } else if b != [] {
      assert a[..0] == b[..0];
      assert forall n :: 0 < n <= |a| && n < |b| ==> a[..n][0] == a[0] && b[..n][0] == b[0];
    }
  }

  predicate HasPrefix(s: Bytes, p: Bytes) {
    |p| <= |s| && s[..|p|] == p
  }

  lemma {:induction false} BeforeIrreflexive(a: Bytes)
    ensures !Before(a, a)
  {
    if a != [] {
      BeforeIrreflexive(a[1..]);
    }
  }

  lemma {:induction false} BeforeTransitive(a: Bytes, b: Bytes, c: Bytes)
    requires Before(a, b) && Before(b, c)
    ensures Before(a, c)
  {
    if a != [] && a[0] == b[0] && b[0] == c[0] {
      BeforeTransitive(a[1..], b[1..], c[1..]);
    }
  }

  lemma {:induction false} BeforeTotal(a: Bytes, b: Bytes)
    requires a != b
    ensures Before(a, b) || Before(b, a)
  {
    if a != [] && b != [] && a[0] == b[0] {
      assert a == [a[0]] + a[1..] && b == [b[0]] + b[1..];
      BeforeTotal(a[1..], b[1..]);
    }
  }

  lemma BeforeIsStrictTotal()
    ensures forall a :: !Before(a, a)
    ensures forall a, b :: Before(a, b) ==> !Before(b, a)
    ensures forall a, b, c :: Before(a, b) && Before(b, c) ==> Before(a, c)
    ensures forall a, b :: a == b || Before(a, b) || Before(b, a)
  {
    forall a ensures !Before(a, a) { BeforeIrreflexive(a); }
    forall a, b, c | Before(a, b) && Before(b, c) ensures Before(a, c) { BeforeTransitive(a, b, c); }
    forall a: Bytes, b: Bytes | a != b ensures Before(a, b) || Before(b, a) { BeforeTotal(a, b); }
  }

  /** Keys that share a prefix are contiguous, and the prefix itself comes before them. */
  lemma {:induction false} PrefixIsContiguous(p: Bytes, k: Bytes, k': Bytes)
    requires HasPrefix(k', p)
    ensures !Before(k', p)
    ensures !Before(k, p) && Before(k, k') ==> HasPrefix(k, p)
  {
    if p != [] {
      assert k'[0] == p[0] && k'[1..][..|p| - 1] == p[1..];
      if k == [] {
        PrefixIsContiguous(p[1..], [], k'[1..]);
      } else {
        PrefixIsContiguous(p[1..], k[1..], k'[1..]);
        if !Before(k, p) && Before(k, k') {
          assert k == [k[0]] + k[1..] && p == [p[0]] + p[1..];
        }
      }
    }
  }

  // ------------------------------------------------------- listings of key sets

  function KeyOrder(): (Bytes, Bytes) -> bool {
    (a, b) => Before(a, b)
  }

  ghost function Elements(ks: seq<Bytes>): set<Bytes> {
    set k <- ks
  }

  lemma ElementsAppend(ks: seq<Bytes>, k: Bytes)
    ensures Elements(ks + [k]) == Elements(ks) + {k}
  {
  }

  ghost predicate IsLowest(k: Bytes, ks: set<Bytes>) {
    k in ks && forall j <- ks :: j == k || Before(k, j)
  }

  lemma {:induction false} LowestExists(ks: set<Bytes>)
    requires ks != {}
    ensures exists k :: IsLowest(k, ks)
    decreases ks
  {
    var k :| k in ks;
    var rest := ks - {k};
    assert ks == rest + {k};
    BeforeIsStrictTotal();
    if rest == {} {
      assert IsLowest(k, ks);
    } else {
      LowestExists(rest);
      var j :| IsLowest(j, rest);
      assert IsLowest(if Before(j, k) then j else k, ks);
    }
  }

  /** The keys of a bucket in cursor order. */
  ghost function InOrder(ks: set<Bytes>): seq<Bytes>
    decreases |ks|
  {
    if ks == {} then []
    else
      LowestExists(ks);
      var k :| IsLowest(k, ks);
      [k] + InOrder(ks - {k})
  }

  lemma {:induction false} InOrderLists(ks: set<Bytes>)
    ensures forall k :: k in InOrder(ks) <==> k in ks
    ensures Ascending(InOrder(ks), KeyOrder())
    decreases |ks|
  {
    if ks != {} {
      var s := InOrder(ks);
      InOrderLists(ks - {s[0]});
      forall i, j | 0 <= i < j < |s| ensures KeyOrder()(s[i], s[j]) {
        assert s[j] in s[1..];
        if i > 0 {
          assert KeyOrder()(s[1..][i - 1], s[1..][j - 1]);
        }
      }
    }
  }

  lemma KeyOrderAsymmetric()
    ensures Asymmetric(KeyOrder())
  {
    BeforeIsStrictTotal();
  }
}
