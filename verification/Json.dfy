/**
 JSON values, JSON Pointer (section 4 of RFC 6901) and the operations add, remove and
 replace of JSON Patch (sections 4.1 to 4.3 of RFC 6902). None stands for a pointer or an
 operation that the standards reject.
*/
module Json {
  import opened Options
  import opened Splitting

  datatype Json =
    | Null
    | Bool(b: bool)
    | Num(text: string)
    | Str(s: string)
    | Arr(items: seq<Json>)
    | Obj(members: map<string, Json>)

  // -------------------------------------------------------------------- numbers

  function Digits(n: nat): string {
    if n < 10 then ['0' + n as char] else Digits(n / 10) + ['0' + (n % 10) as char]
  }

  predicate IsDigit(c: char) {
    '0' <= c <= '9'
  }

  function Value(s: string): nat
    requires forall c <- s :: IsDigit(c)
  {
    if s == [] then 0
    else
      assert IsDigit(s[|s| - 1]);
      Value(s[..|s| - 1]) * 10 + (s[|s| - 1] - '0') as int
  }

  /** An array index: digits without a leading zero. */
  function Index(token: string): Option<nat> {
    if token == [] || (|token| > 1 && token[0] == '0') || !(forall c <- token :: IsDigit(c)) then None
    else Some(Value(token))
  }

  lemma {:induction false} DigitsAreRead(n: nat)
    ensures Digits(n) != [] && (n > 0 ==> Digits(n)[0] != '0')
    ensures forall c <- Digits(n) :: IsDigit(c)
    ensures Value(Digits(n)) == n
  {
    if n >= 10 {
      DigitsAreRead(n / 10);
      var d := Digits(n);
      assert d[..|d| - 1] == Digits(n / 10);
    } else {
      assert Digits(n)[..0] == [];
    }
  }

  lemma IndexOfDigits(n: nat)
    ensures Index(Digits(n)) == Some(n)
    ensures '/' !in Digits(n) && '~' !in Digits(n)
  {
    DigitsAreRead(n);
  }

  // -------------------------------------------------------------------- pointer

  function Unescape(token: string): Option<string> {
    if token == [] then Some([])
    else if token[0] != '~' then
      var r := Unescape(token[1..]);
      if r == None then None else Some([token[0]] + r.value)
    else if |token| == 1 || (token[1] != '0' && token[1] != '1') then None
    else
      var r := Unescape(token[2..]);
      if r == None then None else Some([if token[1] == '0' then '~' else '/'] + r.value)
  }

  function UnescapeAll(parts: seq<string>): Option<seq<string>> {
    if parts == [] then Some([])
    else
      var t := Unescape(parts[0]);
      var rest := UnescapeAll(parts[1..]);
      if t == None || rest == None then None else Some([t.value] + rest.value)
  }

  function Tokens(pointer: string): Option<seq<string>> {
    if pointer == [] then Some([])
    else if pointer[0] != '/' then None
    else UnescapeAll(Split(pointer[1..], '/'))
  }

  predicate Plain(token: string) {
    '/' !in token && '~' !in token
  }

  /** The pointer to tokens that need no escape. */
  function Pointer(tokens: seq<string>): string {
    if tokens == [] then [] else "/" + tokens[0] + Pointer(tokens[1..])
  }

  lemma {:induction false} UnescapePlain(token: string)
    requires Plain(token)
    ensures Unescape(token) == Some(token)
  {
    if token != [] {
      assert token[0] in token;
      UnescapePlain(token[1..]);
      assert token == [token[0]] + token[1..];
    }
  }

  lemma {:induction false} UnescapeAllPlain(tokens: seq<string>)
    requires forall t <- tokens :: Plain(t)
    ensures UnescapeAll(tokens) == Some(tokens)
  {
    if tokens != [] {
      assert Plain(tokens[0]);
      UnescapePlain(tokens[0]);
      UnescapeAllPlain(tokens[1..]);
      assert tokens == [tokens[0]] + tokens[1..];
    }
  }

  lemma {:induction false} PointerIsJoin(tokens: seq<string>)
    requires tokens != []
    ensures Pointer(tokens) == "/" + Join(tokens, '/')
  {
    if |tokens| == 1 {
      assert Pointer(tokens[1..]) == [];
      assert "/" + tokens[0] + [] == "/" + tokens[0];
    } else {
      PointerIsJoin(tokens[1..]);
      assert "/" + tokens[0] + ("/" + Join(tokens[1..], '/')) == "/" + (tokens[0] + ['/'] + Join(tokens[1..], '/'));
    }
  }

  lemma PointerIsRead(tokens: seq<string>)
    requires forall t <- tokens :: Plain(t)
    ensures Tokens(Pointer(tokens)) == Some(tokens)
  {
    if tokens != [] {
      PointerIsJoin(tokens);
      SplitJoin(tokens, '/');
      UnescapeAllPlain(tokens);
      assert Pointer(tokens)[1..] == Join(tokens, '/');
    }
  }

  /** Section 3 of RFC 6901: "~0" stands for '~' and "~1" for '/'. */
  function Escape(token: string): string {
    if token == [] then []
    else (if token[0] == '~' then "~0" else if token[0] == '/' then "~1" else [token[0]]) + Escape(token[1..])
  }

  lemma {:induction false} EscapeIsUndone(token: string)
    ensures '/' !in Escape(token) && Unescape(Escape(token)) == Some(token)
  {
    if token != [] {
      var rest := Escape(token[1..]);
      EscapeIsUndone(token[1..]);
      assert token == [token[0]] + token[1..];
      if token[0] == '~' || token[0] == '/' {
        assert Escape(token)[2..] == rest;
      } else {
        assert Escape(token)[1..] == rest;
      }
    }
  }

  function EscapeAll(tokens: seq<string>): seq<string> {
    if tokens == [] then [] else [Escape(tokens[0])] + EscapeAll(tokens[1..])
  }

  lemma {:induction false} EscapeAllIsUndone(tokens: seq<string>)
    ensures UnescapeAll(EscapeAll(tokens)) == Some(tokens)
    ensures forall t <- EscapeAll(tokens) :: '/' !in t
  {
    if tokens != [] {
      EscapeIsUndone(tokens[0]);
      EscapeAllIsUndone(tokens[1..]);
      assert EscapeAll(tokens)[1..] == EscapeAll(tokens[1..]);
      assert tokens == [tokens[0]] + tokens[1..];
    }
  }

  /** The pointer to any tokens, escaped, is read back as those tokens. */
  lemma EscapedPointerIsRead(tokens: seq<string>)
    ensures Tokens(Pointer(EscapeAll(tokens))) == Some(tokens)
  {
    EscapeAllIsUndone(tokens);
    if tokens != [] {
      var escaped := EscapeAll(tokens);
      PointerIsJoin(escaped);
      SplitJoin(escaped, '/');
      assert Pointer(escaped)[1..] == Join(escaped, '/');
    }
  }

  // ---------------------------------------------------------------------- patch

  datatype Operation =
    | Add(path: string, value: Json)
    | Remove(path: string)
    | Replace(path: string, value: Json)

  /** The operation at the last reference token. */
  function ApplyHere(doc: Json, token: string, op: Operation): Option<Json> {
    match doc
    case Obj(m) => (
      match op
      case Add(_, v) => Some(Obj(m[token := v]))
      case Remove(_) => if token in m then Some(Obj(m - {token})) else None
      case Replace(_, v) => if token in m then Some(Obj(m[token := v])) else None)
    case Arr(a) =>
      var i := Index(token);
      (match op
      case Add(_, v) =>
        if token == "-" then Some(Arr(a + [v]))
        else if i != None && i.value <= |a| then Some(Arr(a[..i.value] + [v] + a[i.value..]))
        else None
      case Remove(_) => if i != None && i.value < |a| then Some(Arr(a[..i.value] + a[i.value + 1..])) else None
      case Replace(_, v) => if i != None && i.value < |a| then Some(Arr(a[i.value := v])) else None)
    case _ => None
  }

  /** In an array, add makes room at the index, remove closes the gap, and replace touches nothing else. */
  lemma ArraysAreEdited(a: seq<Json>, i: nat, path: string, v: Json)
    ensures i <= |a| ==>
              var b := ApplyHere(Arr(a), Digits(i), Add(path, v));
              && b.Some? && b.value.Arr? && |b.value.items| == |a| + 1 && b.value.items[i] == v
              && ApplyHere(b.value, Digits(i), Remove(path)) == Some(Arr(a))
    ensures i < |a| ==> ApplyHere(Arr(a), Digits(i), Replace(path, v)) == Some(Arr(a[i := v]))
    ensures i >= |a| ==> ApplyHere(Arr(a), Digits(i), Remove(path)) == None == ApplyHere(Arr(a), Digits(i), Replace(path, v))
  {
    hide Digits, Index;
    IndexOfDigits(i);
    NoDash(i);
    if i <= |a| {
      var b := a[..i] + [v] + a[i..];
      assert b[..i] + b[i + 1..] == a;
    }
  }

  lemma NoDash(i: nat)
    ensures Digits(i) != "-"
  {
    DigitsAreRead(i);
    assert Digits(i) == "-" ==> '-' in Digits(i);
  }

  function ApplyAt(doc: Json, tokens: seq<string>, op: Operation): Option<Json>
    decreases |tokens|
  {
    if tokens == [] then (if op.Remove? then None else Some(op.value))
    else if |tokens| == 1 then ApplyHere(doc, tokens[0], op)
    else match doc
      case Obj(m) =>
        if tokens[0] !in m then None
        else
          var r := ApplyAt(m[tokens[0]], tokens[1..], op);
          if r == None then None else Some(Obj(m[tokens[0] := r.value]))
      case Arr(a) =>
        var i := Index(tokens[0]);
        if i == None || i.value >= |a| then None
        else
          var r := ApplyAt(a[i.value], tokens[1..], op);
          if r == None then None else Some(Arr(a[i.value := r.value]))
      case _ => None
  }

  function ApplyOne(doc: Json, op: Operation): Option<Json> {
    var tokens := Tokens(op.path);
    if tokens == None then None else ApplyAt(doc, tokens.value, op)
  }

  /** The operations in order; the first that fails fails the patch. */
  function Apply(doc: Json, ops: seq<Operation>): Option<Json> {
    if ops == [] then Some(doc)
    else
      var r := Apply(doc, ops[..|ops| - 1]);
      if r == None then None else ApplyOne(r.value, ops[|ops| - 1])
  }

  lemma {:induction false} ApplyAppend(doc: Json, ops: seq<Operation>, more: seq<Operation>)
    ensures Apply(doc, ops + more)
         == if Apply(doc, ops) == None then None else Apply(Apply(doc, ops).value, more)
  {
    if more == [] {
      assert ops + more == ops;
    } else {
      var n := |more| - 1;
      ApplyAppend(doc, ops, more[..n]);
      assert (ops + more)[..|ops + more| - 1] == ops + more[..n];
    }
  }
}
