/** strings.Split and strings.Join with a separator of one element, and their inverse laws. */
module Splitting {

  function Join<T>(parts: seq<seq<T>>, sep: T): seq<T> {
    if parts == [] then []
    else if |parts| == 1 then parts[0]
    else parts[0] + [sep] + Join(parts[1..], sep)
  }

  function Split<T(==)>(s: seq<T>, sep: T): (r: seq<seq<T>>)
    ensures r != []
  {
    if s == [] then [[]]
    else if s[0] == sep then [[]] + Split(s[1..], sep)
    else
      var r := Split(s[1..], sep);
      [[s[0]] + r[0]] + r[1..]
  }

  lemma {:induction false} SplitFirst<T>(a: seq<T>, rest: seq<T>, sep: T)
    requires sep !in a
    ensures Split(a, sep) == [a]
    ensures Split(a + [sep] + rest, sep) == [a] + Split(rest, sep)
  {
    if a == [] {
      assert a + [sep] + rest == [sep] + rest;
    } else {
      SplitFirst(a[1..], rest, sep);
      assert a == [a[0]] + a[1..] && a[0] in a;
      assert (a + [sep] + rest)[1..] == a[1..] + [sep] + rest;
    }
  }

  lemma {:induction false} SplitJoin<T>(parts: seq<seq<T>>, sep: T)
    requires parts != [] && forall p <- parts :: sep !in p
    ensures Split(Join(parts, sep), sep) == parts
  {
    assert sep !in parts[0];
    if |parts| == 1 {
      SplitFirst(parts[0], [], sep);
    } else {
      SplitJoin(parts[1..], sep);
      SplitFirst(parts[0], Join(parts[1..], sep), sep);
    }
  }

  lemma JoinMore<T>(a: seq<T>, rest: seq<seq<T>>, sep: T)
    requires rest != []
    ensures Join([a] + rest, sep) == a + [sep] + Join(rest, sep)
  {
    assert ([a] + rest)[1..] == rest;
  }

  lemma {:induction false} JoinSplit<T>(s: seq<T>, sep: T)
    ensures Join(Split(s, sep), sep) == s
  {
    if s != [] {
      JoinSplit(s[1..], sep);
      var r := Split(s[1..], sep);
      if s[0] == sep {
        JoinMore([], r, sep);
        assert s == [] + [sep] + s[1..];
      } else if |r| == 1 {
        assert s == [s[0]] + s[1..];
      } else {
        JoinMore(r[0], r[1..], sep);
        JoinMore([s[0]] + r[0], r[1..], sep);
        assert r == [r[0]] + r[1..];
        assert s == [s[0]] + s[1..];
        assert [s[0]] + (r[0] + [sep] + Join(r[1..], sep)) == [s[0]] + r[0] + [sep] + Join(r[1..], sep);
      }
    }
  }
}
