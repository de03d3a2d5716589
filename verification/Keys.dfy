/**
 The keys of the persistence buckets: three base64url parts joined by '/' for a snapshot,
 and the lower-cased name followed by four base64url parts, all joined by NUL, for a row of
 the name index. The alphabet is that of section 5 of RFC 4648, without padding
 (section 3.2); the decoder is Go's non-strict one, which skips line breaks and does not
 look at the bits left over in the last symbol.
*/
module Keys {
  import opened Options
  import opened Bytes
  import opened Splitting

  const SLASH: Byte := 47
  const NUL: Byte := 0
  const LF: Byte := 10
  const CR: Byte := 13

  // ------------------------------------------------------------------ base64url

  type Sextet = v: int | 0 <= v < 64

  function Symbol(v: Sextet): Byte {
    if v < 26 then 65 + v            // A-Z
    else if v < 52 then 71 + v       // a-z
    else if v < 62 then v - 4        // 0-9
    else if v == 62 then 45 else 95  // - _
  }

  predicate IsSymbol(c: Byte) {
    65 <= c <= 90 || 97 <= c <= 122 || 48 <= c <= 57 || c == 45 || c == 95
  }

  function Value(c: Byte): Sextet
    requires IsSymbol(c)
  {
    if c == 95 then 63 else if c == 45 then 62
    else if c <= 57 then c + 4 else if c <= 90 then c - 65 else c - 71
  }

  lemma SymbolsAreFaithful()
    ensures forall v: Sextet :: IsSymbol(Symbol(v)) && Value(Symbol(v)) == v
    ensures forall c: Byte :: IsSymbol(c) ==> Symbol(Value(c)) == c
    ensures !IsSymbol(SLASH) && !IsSymbol(NUL) && !IsSymbol(LF) && !IsSymbol(CR)
  {
  }

  const CAPITALS := "ABCDEFGHIJKLMNOPQRSTUVWXYZ"
  const SMALLS := "abcdefghijklmnopqrstuvwxyz"
  const DIGITS := "0123456789"

  /** The table of section 5 of RFC 4648, in its order. */
  lemma AlphabetIsTheTable(v: Sextet)
    ensures Symbol(v) == (CAPITALS + SMALLS + DIGITS + "-_")[v] as int
  {
    CapitalsAscend(if v < 26 then v else 0);
    SmallsAscend(if 26 <= v < 52 then v - 26 else 0);
    assert forall i :: 0 <= i < 10 ==> DIGITS[i] as int == 48 + i;
    hide CAPITALS, SMALLS, DIGITS;
  }

  lemma CapitalsAscend(i: nat)
    requires i < 26
    ensures |CAPITALS| == 26 && |SMALLS| == 26 && |DIGITS| == 10
    ensures CAPITALS[i] as int == 65 + i
  {
  }

  lemma SmallsAscend(i: nat)
    requires i < 26
    ensures |SMALLS| == 26 && SMALLS[i] as int == 97 + i
  {
  }

  // Three bytes are four sextets; each function names one of the seven.

  function High(a: Byte): Sextet { a / 4 }
  function Second(a: Byte, b: Byte): Sextet { a % 4 * 16 + b / 16 }
  function Third(b: Byte, c: Byte): Sextet { b % 16 * 4 + c / 64 }
  function Low(c: Byte): Sextet { c % 64 }

  function Byte0(v0: Sextet, v1: Sextet): Byte { v0 * 4 + v1 / 16 }
  function Byte1(v1: Sextet, v2: Sextet): Byte { v1 % 16 * 16 + v2 / 4 }
  function Byte2(v2: Sextet, v3: Sextet): Byte { v2 % 4 * 64 + v3 }

  lemma GroupToBytes(a: Byte, b: Byte, c: Byte)
    ensures Byte0(High(a), Second(a, b)) == a
    ensures Byte1(Second(a, b), Third(b, c)) == b
    ensures Byte2(Third(b, c), Low(c)) == c
  {
  }

  lemma GroupToSextets(v0: Sextet, v1: Sextet, v2: Sextet, v3: Sextet)
    ensures High(Byte0(v0, v1)) == v0
    ensures Second(Byte0(v0, v1), Byte1(v1, v2)) == v1
    ensures Third(Byte1(v1, v2), Byte2(v2, v3)) == v2
    ensures Low(Byte2(v2, v3)) == v3
    ensures Second(Byte0(v0, v1), 0) == v1 <==> v1 % 16 == 0
    ensures Third(Byte1(v1, v2), 0) == v2 <==> v2 % 4 == 0
  {
  }

  /** RawURLEncoding.EncodeToString. */
  function KeyPart(s: Bytes): Bytes {
    if s == [] then []
    else if |s| == 1 then [Symbol(High(s[0])), Symbol(Second(s[0], 0))]
    else if |s| == 2 then [Symbol(High(s[0])), Symbol(Second(s[0], s[1])), Symbol(Third(s[1], 0))]
    else
      [Symbol(High(s[0])), Symbol(Second(s[0], s[1])), Symbol(Third(s[1], s[2])), Symbol(Low(s[2]))]
      + KeyPart(s[3..])
  }

  function WithoutBreaks(s: Bytes): Bytes {
    if s == [] then []
    else (if s[0] == LF || s[0] == CR then [] else [s[0]]) + WithoutBreaks(s[1..])
  }

  predicate AllSymbols(s: Bytes) {
    forall i :: 0 <= i < |s| ==> IsSymbol(s[i])
  }

  function FromSymbols(s: Bytes): Bytes
    requires AllSymbols(s) && |s| % 4 != 1
  {
    if s == [] then []
    else if |s| == 2 then [Byte0(Value(s[0]), Value(s[1]))]
    else if |s| == 3 then [Byte0(Value(s[0]), Value(s[1])), Byte1(Value(s[1]), Value(s[2]))]
    else
      [Byte0(Value(s[0]), Value(s[1])), Byte1(Value(s[1]), Value(s[2])), Byte2(Value(s[2]), Value(s[3]))]
      + FromSymbols(s[4..])
  }

  /** RawURLEncoding.DecodeString; None is a CorruptInputError. */
  function DecodeKeyPart(s: Bytes): Option<Bytes> {
    var t := WithoutBreaks(s);
    if AllSymbols(t) && |t| % 4 != 1 then Some(FromSymbols(t)) else None
  }

  lemma {:induction false} NoBreaksToSkip(s: Bytes)
    requires AllSymbols(s)
    ensures WithoutBreaks(s) == s
  {
    if s != [] {
      assert IsSymbol(s[0]);
      NoBreaksToSkip(s[1..]);
    }
  }

  lemma {:induction false} FromSymbolsUndoes(s: Bytes)
    ensures AllSymbols(KeyPart(s)) && |KeyPart(s)| % 4 != 1
    ensures FromSymbols(KeyPart(s)) == s
  {
    hide Symbol, Value, IsSymbol, High, Second, Third, Low, Byte0, Byte1, Byte2;
    SymbolsAreFaithful();
    if |s| == 1 {
      GroupToBytes(s[0], 0, 0);
    } else if |s| == 2 {
      GroupToBytes(s[0], s[1], 0);
    } else if |s| >= 3 {
      GroupToBytes(s[0], s[1], s[2]);
      FromSymbolsUndoes(s[3..]);
      assert KeyPart(s)[4..] == KeyPart(s[3..]);
      assert s == s[..3] + s[3..];
    }
  }

  /** A part decodes to what it was made of, and never holds a separator. */
  lemma PartRoundTrip(s: Bytes)
    ensures DecodeKeyPart(KeyPart(s)) == Some(s)
    ensures SLASH !in KeyPart(s) && NUL !in KeyPart(s)
  {
    FromSymbolsUndoes(s);
    NoBreaksToSkip(KeyPart(s));
  }

  /** Test vectors: three of section 10 of RFC 4648, and one that needs both symbols of section 5. */
  lemma KnownEncodings()
    ensures KeyPart([102]) == [90, 103]                        // "f" is "Zg"
    ensures KeyPart([102, 111]) == [90, 109, 56]               // "fo" is "Zm8"
    ensures KeyPart([102, 111, 111]) == [90, 109, 57, 118]     // "foo" is "Zm9v"
    ensures KeyPart([251, 255]) == [45, 95, 56]                // "-_8"
  {
    assert [102, 111, 111][3..] == [];
  }

  /** No line breaks, whole groups, and nothing in the bits the decoder ignores. */
  predicate Canonical(s: Bytes) {
    && AllSymbols(s) && |s| % 4 != 1
    && (|s| % 4 == 2 ==> Value(s[|s| - 1]) % 16 == 0)
    && (|s| % 4 == 3 ==> Value(s[|s| - 1]) % 4 == 0)
  }

  lemma EncodeGroup(a: Byte, b: Byte, c: Byte, rest: Bytes)
    ensures KeyPart([a, b, c] + rest)
         == [Symbol(High(a)), Symbol(Second(a, b)), Symbol(Third(b, c)), Symbol(Low(c))] + KeyPart(rest)
  {
    hide Symbol, High, Second, Third, Low;
    assert ([a, b, c] + rest)[3..] == rest;
  }

  lemma SymbolAt(s: Bytes, i: nat)
    requires AllSymbols(s) && i < |s|
    ensures IsSymbol(s[i]) && Symbol(Value(s[i])) == s[i]
  {
    SymbolsAreFaithful();
  }

  lemma TailSymbols(s: Bytes)
    requires AllSymbols(s) && |s| % 4 != 1 && |s| >= 4
    ensures AllSymbols(s[4..]) && |s[4..]| % 4 == |s| % 4
    ensures Canonical(s[4..]) <==> Canonical(s)
  {
    hide IsSymbol, Value;
    var n := |s|;
    assert forall c <- s[4..] :: c in s;
    assert n > 4 ==> s[4..][n - 5] == s[n - 1];
  }

  lemma DecodeGroup(s: Bytes)
    requires AllSymbols(s) && |s| % 4 != 1 && |s| >= 4 && AllSymbols(s[4..])
    ensures IsSymbol(s[0]) && IsSymbol(s[1]) && IsSymbol(s[2]) && IsSymbol(s[3])
    ensures FromSymbols(s)
         == [Byte0(Value(s[0]), Value(s[1])), Byte1(Value(s[1]), Value(s[2])), Byte2(Value(s[2]), Value(s[3]))]
            + FromSymbols(s[4..])
  {
    hide Value, IsSymbol, Byte0, Byte1, Byte2;
  }

  lemma WholeGroup(s: Bytes)
    requires AllSymbols(s) && |s| % 4 != 1 && |s| >= 4 && AllSymbols(s[4..])
    ensures KeyPart(FromSymbols(s)) == [s[0], s[1], s[2], s[3]] + KeyPart(FromSymbols(s[4..]))
  {
    hide AllSymbols, FromSymbols, KeyPart, Symbol, Value, IsSymbol, High, Second, Third, Low, Byte0, Byte1, Byte2;
    DecodeGroup(s);
    SymbolAt(s, 0); SymbolAt(s, 1); SymbolAt(s, 2); SymbolAt(s, 3);
    GroupToSextets(Value(s[0]), Value(s[1]), Value(s[2]), Value(s[3]));
    EncodeGroup(Byte0(Value(s[0]), Value(s[1])), Byte1(Value(s[1]), Value(s[2])), Byte2(Value(s[2]), Value(s[3])), FromSymbols(s[4..]));
  }

  lemma LastTwo(x: Byte, y: Byte)
    requires IsSymbol(x) && IsSymbol(y)
    ensures KeyPart([Byte0(Value(x), Value(y))]) == [x, y] <==> Value(y) % 16 == 0
  {
    hide Symbol, Value, IsSymbol, High, Second, Byte0;
    SymbolsAreFaithful();
    GroupToSextets(Value(x), Value(y), 0, 0);
  }

  lemma LastThree(x: Byte, y: Byte, z: Byte)
    requires IsSymbol(x) && IsSymbol(y) && IsSymbol(z)
    ensures KeyPart([Byte0(Value(x), Value(y)), Byte1(Value(y), Value(z))]) == [x, y, z] <==> Value(z) % 4 == 0
  {
    hide Symbol, Value, IsSymbol, High, Second, Third, Byte0, Byte1;
    SymbolsAreFaithful();
    GroupToSextets(Value(x), Value(y), Value(z), 0);
  }

  lemma LastGroup(s: Bytes)
    requires AllSymbols(s) && |s| % 4 != 1 && |s| < 4
    ensures KeyPart(FromSymbols(s)) == s <==> Canonical(s)
  {
    hide KeyPart, Symbol, Value, IsSymbol, Byte0, Byte1;
    if |s| == 2 {
      LastTwo(s[0], s[1]);
    } else if |s| == 3 {
      LastThree(s[0], s[1], s[2]);
    } else {
      EmptyPart();
    }
  }

  lemma SameFront(front: Bytes, s: Bytes, t: Bytes)
    ensures front + s == front + t <==> s == t
  {
    assert (front + s)[|front|..] == s && (front + t)[|front|..] == t;
  }

  lemma {:induction false} FromSymbolsCanonical(s: Bytes)
    requires AllSymbols(s) && |s| % 4 != 1
    ensures KeyPart(FromSymbols(s)) == s <==> Canonical(s)
  {
    hide AllSymbols, KeyPart, FromSymbols, Canonical;
    if |s| < 4 {
      LastGroup(s);
    } else {
      TailSymbols(s);
      WholeGroup(s);
      FromSymbolsCanonical(s[4..]);
      assert s == [s[0], s[1], s[2], s[3]] + s[4..];
      SameFront([s[0], s[1], s[2], s[3]], KeyPart(FromSymbols(s[4..])), s[4..]);
    }
  }

  /** The decoder accepts more than the encoder writes; this says by exactly how much. */
  lemma DecodingIsExactOnCanonical(s: Bytes)
    ensures (DecodeKeyPart(s).Some? && KeyPart(DecodeKeyPart(s).value) == s) <==> Canonical(s)
  {
    if AllSymbols(s) {
      NoBreaksToSkip(s);
      if |s| % 4 != 1 {
        FromSymbolsCanonical(s);
      }
    } else if DecodeKeyPart(s).Some? {
      FromSymbolsUndoes(DecodeKeyPart(s).value);
    }
  }

  // ----------------------------------------------------------------------- keys

  datatype Cell = Cell(cluster: Bytes, kind: Bytes, namespace: Bytes)

  function SnapshotKey(c: Cell): Bytes {
    Join([KeyPart(c.cluster), KeyPart(c.kind), KeyPart(c.namespace)], SLASH)
  }

  function DecodeSnapshotKey(key: Bytes): Option<Cell> {
    var parts := Split(key, SLASH);
    if |parts| != 3 then None
    else
      var c := DecodeKeyPart(parts[0]);
      if c == None then None
      else
        var k := DecodeKeyPart(parts[1]);
        if k == None then None
        else
          var n := DecodeKeyPart(parts[2]);
          if n == None then None else Some(Cell(c.value, k.value, n.value))
  }

  /** Every cell, whatever bytes it holds, is read back from its key. */
  lemma SnapshotKeyRoundTrip(c: Cell)
    ensures DecodeSnapshotKey(SnapshotKey(c)) == Some(c)
  {
    PartRoundTrip(c.cluster);
    PartRoundTrip(c.kind);
    PartRoundTrip(c.namespace);
    SplitJoin([KeyPart(c.cluster), KeyPart(c.kind), KeyPart(c.namespace)], SLASH);
  }

  lemma SnapshotKeyInjective(c: Cell, d: Cell)
    requires SnapshotKey(c) == SnapshotKey(d)
    ensures c == d
  {
    SnapshotKeyRoundTrip(c);
    SnapshotKeyRoundTrip(d);
  }

  /** The parts of a key stand in the order cluster, kind, namespace: "Zg/Zm8/Zm9v" for "f", "fo" and "foo". */
  lemma KnownSnapshotKey()
    ensures SnapshotKey(Cell([102], [102, 111], [102, 111, 111])) == [90, 103, 47, 90, 109, 56, 47, 90, 109, 57, 118]
  {
    KnownEncodings();
    hide KeyPart;
    var f, fo, foo: Bytes := [90, 103], [90, 109, 56], [90, 109, 57, 118];
    JoinMore(fo, [foo], SLASH);
    JoinMore(f, [fo, foo], SLASH);
    assert Join([foo], SLASH) == foo;
  }

  /** A key is read as a cell whose key it is exactly when it is three canonical parts. */
  lemma SnapshotKeysExactly(key: Bytes)
    ensures DecodeSnapshotKey(key).Some? && SnapshotKey(DecodeSnapshotKey(key).value) == key
       <==> |Split(key, SLASH)| == 3 && forall p <- Split(key, SLASH) :: Canonical(p)
  {
    hide KeyPart, DecodeKeyPart, Canonical, Join, Split;
    var parts := Split(key, SLASH);
    JoinSplit(key, SLASH);
    if |parts| == 3 {
      DecodingIsExactOnCanonical(parts[0]);
      DecodingIsExactOnCanonical(parts[1]);
      DecodingIsExactOnCanonical(parts[2]);
      assert parts == [parts[0], parts[1], parts[2]];
    }
    if DecodeSnapshotKey(key).Some? {
      var c := DecodeSnapshotKey(key).value;
      PartRoundTrip(c.cluster);
      PartRoundTrip(c.kind);
      PartRoundTrip(c.namespace);
      SplitJoin([KeyPart(c.cluster), KeyPart(c.kind), KeyPart(c.namespace)], SLASH);
    }
  }

  /** The converse fails: "//QQ" and "//QR" both decode to the namespace "A". */
  lemma DecodingIsNotInjective()
    ensures DecodeSnapshotKey([SLASH, SLASH, 81, 81]) == DecodeSnapshotKey([SLASH, SLASH, 81, 82])
         == Some(Cell([], [], [65]))
  {
    hide DecodeSnapshotKey;
    NamespaceOnly([81, 81]);
    NamespaceOnly([81, 82]);
    assert [SLASH, SLASH, 81, 81] == [SLASH, SLASH] + [81, 81];
    assert [SLASH, SLASH, 81, 82] == [SLASH, SLASH] + [81, 82];
  }

  lemma NamespaceOnly(x: Bytes)
    requires AllSymbols(x) && |x| % 4 != 1
    ensures DecodeSnapshotKey([SLASH, SLASH] + x) == Some(Cell([], [], FromSymbols(x)))
  {
    hide DecodeKeyPart, FromSymbols, Split;
    SplitFirst([], [SLASH] + x, SLASH);
    SplitFirst([], x, SLASH);
    SplitFirst(x, [], SLASH);
    PartsDecode(x);
    PartsDecode([]);
    EmptyPart();
    assert [SLASH, SLASH] + x == [] + [SLASH] + ([SLASH] + x) && [SLASH] + x == [] + [SLASH] + x;
  }

  lemma EmptyPart()
    ensures FromSymbols([]) == [] && KeyPart([]) == []
  {
  }

  lemma PartsDecode(s: Bytes)
    requires AllSymbols(s) && |s| % 4 != 1
    ensures DecodeKeyPart(s) == Some(FromSymbols(s))
  {
    NoBreaksToSkip(s);
  }

  /** `lower` is strings.ToLower applied to the name. */
  function SearchIndexKey(c: Cell, name: Bytes, lower: Bytes -> Bytes): Bytes {
    Join([lower(name), KeyPart(c.cluster), KeyPart(c.kind), KeyPart(c.namespace), KeyPart(name)], NUL)
  }

  lemma LastSeparator(u: Bytes, x: Bytes, sep: Byte)
    requires sep !in x
    ensures var s := u + [sep] + x;
            s[|u|] == sep && s[..|u|] == u && s[|u| + 1..] == x && forall i :: |u| < i < |s| ==> s[i] != sep
  {
    var s := u + [sep] + x;
    forall i | |u| < i < |s| ensures s[i] != sep {
      assert s[i] == x[i - |u| - 1];
    }
  }

  lemma LastPartIsDetermined(u: Bytes, x: Bytes, v: Bytes, y: Bytes, sep: Byte)
    requires sep !in x && sep !in y && u + [sep] + x == v + [sep] + y
    ensures u == v && x == y
  {
    LastSeparator(u, x, sep);
    LastSeparator(v, y, sep);
  }

  lemma JoinFive(a: Bytes, b: Bytes, c: Bytes, d: Bytes, e: Bytes, sep: Byte)
    ensures Join([a, b, c, d, e], sep) == a + [sep] + b + [sep] + c + [sep] + d + [sep] + e
  {
    JoinMore(d, [e], sep);
    JoinMore(c, [d, e], sep);
    JoinMore(b, [c, d, e], sep);
    JoinMore(a, [b, c, d, e], sep);
    assert Join([e], sep) == e;
  }

  lemma IndexKeyFromTheRight(c: Cell, name: Bytes, lower: Bytes -> Bytes)
    ensures SearchIndexKey(c, name, lower)
         == lower(name) + [NUL] + KeyPart(c.cluster) + [NUL] + KeyPart(c.kind) + [NUL] + KeyPart(c.namespace) + [NUL] + KeyPart(name)
  {
    hide KeyPart, Join;
    JoinFive(lower(name), KeyPart(c.cluster), KeyPart(c.kind), KeyPart(c.namespace), KeyPart(name), NUL);
  }

  /** The parts of an index key: the name in lower case, cluster, kind, namespace, and the name as it is. */
  lemma KnownIndexKey(lower: Bytes -> Bytes)
    requires lower([70, 111]) == [102, 111]
    ensures SearchIndexKey(Cell([102], [102, 111], [102, 111, 111]), [70, 111], lower)
         == [102, 111, 0, 90, 103, 0, 90, 109, 56, 0, 90, 109, 57, 118, 0, 82, 109, 56]
  {
    KnownEncodings();
    assert KeyPart([70, 111]) == [82, 109, 56];
    IndexKeyFromTheRight(Cell([102], [102, 111], [102, 111, 111]), [70, 111], lower);
    hide KeyPart, SearchIndexKey;
  }

  /** Even with NUL inside names, a key of the name index belongs to one cell and one name. */
  lemma SearchIndexKeyInjective(c: Cell, n: Bytes, d: Cell, m: Bytes, lower: Bytes -> Bytes)
    ensures SearchIndexKey(c, n, lower) == SearchIndexKey(d, m, lower) <==> c == d && n == m
  {
    hide KeyPart, Join, SearchIndexKey, DecodeKeyPart;
    if SearchIndexKey(c, n, lower) == SearchIndexKey(d, m, lower) {
      IndexKeyFromTheRight(c, n, lower);
      IndexKeyFromTheRight(d, m, lower);
      PartRoundTrip(c.cluster); PartRoundTrip(c.kind); PartRoundTrip(c.namespace); PartRoundTrip(n);
      PartRoundTrip(d.cluster); PartRoundTrip(d.kind); PartRoundTrip(d.namespace); PartRoundTrip(m);
      var u1, v1 := lower(n) + [NUL] + KeyPart(c.cluster), lower(m) + [NUL] + KeyPart(d.cluster);
      var u2, v2 := u1 + [NUL] + KeyPart(c.kind), v1 + [NUL] + KeyPart(d.kind);
      var u3, v3 := u2 + [NUL] + KeyPart(c.namespace), v2 + [NUL] + KeyPart(d.namespace);
      LastPartIsDetermined(u3, KeyPart(n), v3, KeyPart(m), NUL);
      LastPartIsDetermined(u2, KeyPart(c.namespace), v2, KeyPart(d.namespace), NUL);
      LastPartIsDetermined(u1, KeyPart(c.kind), v1, KeyPart(d.kind), NUL);
      LastPartIsDetermined(lower(n), KeyPart(c.cluster), lower(m), KeyPart(d.cluster), NUL);
    }
  }

  /** A key starts with a NUL-free prefix exactly when the lower-cased name does. */
  lemma PrefixOfKeyIsPrefixOfName(c: Cell, n: Bytes, p: Bytes, lower: Bytes -> Bytes)
    requires NUL !in p
    ensures HasPrefix(SearchIndexKey(c, n, lower), p) <==> HasPrefix(lower(n), p)
  {
    hide KeyPart, Join, SearchIndexKey;
    IndexKeyFromTheRight(c, n, lower);
    var key, l := SearchIndexKey(c, n, lower), lower(n);
    assert key[..|l|] == l && key[|l|] == NUL;
    if |p| <= |l| {
      assert key[..|p|] == l[..|p|];
    } else {
      assert p[|l|] in p;
    }
  }
}
