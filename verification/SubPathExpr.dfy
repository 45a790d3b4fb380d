/** Which volume sub-path expressions depend on POD_NAME: a tokenizer that jumps over whole runes
    and gives up at an unterminated reference, against the byte-by-byte expansion it predicts. */
module SubPathExpr {
  type Byte = x: int | 0 <= x < 256
  type Bytes = seq<Byte>

  const DOLLAR: Byte := 0x24
  const OPEN: Byte := 0x28
  const CLOSE: Byte := 0x29
  // the octets of "POD_NAME"
  const POD_NAME: Bytes := [0x50, 0x4F, 0x44, 0x5F, 0x4E, 0x41, 0x4D, 0x45]

  // ---- What Kubernetes does with an expression ---------------------------

  /** The first position from `from` on that holds b, or |s|. */
  function Find(s: Bytes, from: nat, b: Byte): (i: nat)
    requires from <= |s|
    ensures from <= i <= |s| && (i < |s| ==> s[i] == b)
    ensures forall j :: from <= j < i ==> s[j] != b
    decreases |s| - from
  {
    if from == |s| || s[from] == b then from else Find(s, from + 1, b)
  }

  predicate AtReference(s: Bytes, i: nat) {
    i + 1 < |s| && s[i] == DOLLAR && s[i + 1] == OPEN && Find(s, i + 2, CLOSE) < |s|
  }

  type Env = Bytes -> Bytes

  /** What the octets at position i expand to: $$ stands for a dollar, $(NAME) for a variable's value,
      and everything else, a stray dollar and an open reference included, for itself. */
  function Piece(s: Bytes, i: nat, env: Env): Bytes
    requires i < |s|
  {
    if AtReference(s, i) then env(s[i + 2..Find(s, i + 2, CLOSE)])
    else if s[i] == DOLLAR && i + 1 < |s| then (if s[i + 1] == DOLLAR then [DOLLAR] else [DOLLAR, s[i + 1]])
    else [s[i]]
  }

  /** The position behind those octets. */
  function Next(s: Bytes, i: nat): (next: nat)
    requires i < |s|
    ensures i < next <= |s|
  {
    if AtReference(s, i) then Find(s, i + 2, CLOSE) + 1
    else if s[i] == DOLLAR && i + 1 < |s| then i + 2
    else i + 1
  }

  /** Expands s from position i on. */
  function Expand(s: Bytes, i: nat, env: Env): Bytes
    requires i <= |s|
    decreases |s| - i
  {
    if i == |s| then [] else Piece(s, i, env) + Expand(s, Next(s, i), env)
  }

  /** How often the expansion from position i on reads a variable. */
  function Reads(s: Bytes, i: nat, name: Bytes): nat
    requires i <= |s|
    decreases |s| - i
  {
    if i == |s| then 0
    else (if AtReference(s, i) && s[i + 2..Find(s, i + 2, CLOSE)] == name then 1 else 0) + Reads(s, Next(s, i), name)
  }

  function With(env: Env, name: Bytes, value: Bytes): Env {
    n => if n == name then value else env(n)
  }

  ghost predicate DifferOnlyIn(e: Env, f: Env, name: Bytes) {
    forall n :: n != name ==> e(n) == f(n)
  }

  lemma {:induction false} FindShift(a: Bytes, s: Bytes, from: nat, b: Byte)
    requires from <= |s|
    ensures Find(a + s, |a| + from, b) == |a| + Find(s, from, b)
    decreases |s| - from
  {
    if from < |s| && s[from] != b { FindShift(a, s, from + 1, b); }
  }

  lemma ReferenceShift(a: Bytes, s: Bytes, i: nat)
    requires i <= |s|
    ensures AtReference(a + s, |a| + i) <==> AtReference(s, i)
    ensures AtReference(s, i) ==>
              var end := Find(s, i + 2, CLOSE);
              Find(a + s, |a| + i + 2, CLOSE) == |a| + end && (a + s)[|a| + i + 2..|a| + end] == s[i + 2..end]
  {
    if i + 1 < |s| && s[i] == DOLLAR && s[i + 1] == OPEN { FindShift(a, s, i + 2, CLOSE); }
  }

  lemma PieceShift(a: Bytes, s: Bytes, i: nat, env: Env)
    requires i < |s|
    ensures Piece(a + s, |a| + i, env) == Piece(s, i, env) && Next(a + s, |a| + i) == |a| + Next(s, i)
  {
    ReferenceShift(a, s, i);
    assert (a + s)[|a| + i] == s[i] && (i + 1 < |s| ==> (a + s)[|a| + i + 1] == s[i + 1]);
  }

  /** What an expression expands to from some position on depends only on what follows there. */
  lemma {:induction false} ExpandShift(a: Bytes, s: Bytes, i: nat, env: Env)
    requires i <= |s|
    ensures Expand(a + s, |a| + i, env) == Expand(s, i, env)
    decreases |s| - i
  {
    if i < |s| {
      PieceShift(a, s, i, env);
      ExpandShift(a, s, Next(s, i), env);
    }
  }

  /** The syntax, piece by piece: $(name) is replaced by the value, $$ by one dollar; any other octet
      stands for itself, and so does a dollar in front of one, at the end, or of an open reference. */
  lemma ExpandSyntax(name: Bytes, b: Byte, rest: Bytes, env: Env)
    ensures CLOSE !in name ==> Expand([DOLLAR, OPEN] + name + [CLOSE] + rest, 0, env) == env(name) + Expand(rest, 0, env)
    ensures Expand([DOLLAR, DOLLAR] + rest, 0, env) == [DOLLAR] + Expand(rest, 0, env)
    ensures b != DOLLAR ==> Expand([b] + rest, 0, env) == [b] + Expand(rest, 0, env)
    ensures b != DOLLAR && (b != OPEN || CLOSE !in rest) ==> Expand([DOLLAR, b] + rest, 0, env) == [DOLLAR, b] + Expand(rest, 0, env)
    ensures Expand([DOLLAR], 0, env) == [DOLLAR] && Expand([], 0, env) == []
  {
    ExpandShift([DOLLAR, DOLLAR], rest, 0, env);
    ExpandShift([b], rest, 0, env);
    ExpandShift([DOLLAR, b], rest, 0, env);
    assert Expand([DOLLAR], 1, env) == [];
    if CLOSE !in name { ExpandReference(name, rest, env); }
    if b == OPEN && CLOSE !in rest { OpenReference(rest); }
  }

  lemma OpenReference(rest: Bytes)
    requires CLOSE !in rest
    ensures !AtReference([DOLLAR, OPEN] + rest, 0)
  {
    var s := [DOLLAR, OPEN] + rest;
    forall k | 2 <= k < |s| ensures s[k] != CLOSE { assert s[k] == rest[k - 2]; }
  }

  lemma ExpandReference(name: Bytes, rest: Bytes, env: Env)
    requires CLOSE !in name
    ensures Expand([DOLLAR, OPEN] + name + [CLOSE] + rest, 0, env) == env(name) + Expand(rest, 0, env)
  {
    var front := [DOLLAR, OPEN] + name + [CLOSE];
    var s := front + rest;
    var end := Find(s, 2, CLOSE);
    assert s[2 + |name|] == CLOSE;
    forall k | 2 <= k < 2 + |name| ensures s[k] != CLOSE { assert s[k] == name[k - 2]; }
    assert s[2..end] == name;
    ExpandShift(front, rest, 0, env);
  }

  lemma {:induction false} UnreadDoesNotMatter(s: Bytes, i: nat, e: Env, f: Env, name: Bytes)
    requires i <= |s| && DifferOnlyIn(e, f, name) && Reads(s, i, name) == 0
    ensures Expand(s, i, e) == Expand(s, i, f)
    decreases |s| - i
  {
    if i < |s| {
      UnreadDoesNotMatter(s, Next(s, i), e, f, name);
    }
  }

  lemma {:induction false} EachReadCounts(s: Bytes, i: nat, env: Env, name: Bytes)
    requires i <= |s|
    ensures |Expand(s, i, With(env, name, [DOLLAR]))| == |Expand(s, i, With(env, name, []))| + Reads(s, i, name)
    decreases |s| - i
  {
    if i < |s| {
      EachReadCounts(s, Next(s, i), env, name);
    }
  }

  /** An expansion depends on a variable, whatever the others are, exactly when it reads it. */
  lemma DependsIffRead(s: Bytes, env: Env, name: Bytes)
    ensures Reads(s, 0, name) > 0 <==>
              exists v, w :: Expand(s, 0, With(env, name, v)) != Expand(s, 0, With(env, name, w))
  {
    EachReadCounts(s, 0, env, name);
    if Reads(s, 0, name) == 0 {
      forall v, w ensures Expand(s, 0, With(env, name, v)) == Expand(s, 0, With(env, name, w)) {
        UnreadDoesNotMatter(s, 0, With(env, name, v), With(env, name, w), name);
      }
    } else {
      assert Expand(s, 0, With(env, name, [DOLLAR])) != Expand(s, 0, With(env, name, []));
    }
  }

  // ---- The tokenizer -----------------------------------------------------

  predicate IsContinuation(b: Byte) {
    0x80 <= b <= 0xBF
  }

  /** The length of a sequence that starts with b, and the range of its second octet; 1 for octets
      that start no longer sequence (section 4 of RFC 3629). */
  function Leads(b: Byte): (nat, Byte, Byte) {
    if 0xC2 <= b <= 0xDF then (2, 0x80, 0xBF)
    else if b == 0xE0 then (3, 0xA0, 0xBF)
    else if b == 0xED then (3, 0x80, 0x9F)
    else if 0xE1 <= b <= 0xEF then (3, 0x80, 0xBF)
    else if b == 0xF0 then (4, 0x90, 0xBF)
    else if 0xF1 <= b <= 0xF3 then (4, 0x80, 0xBF)
    else if b == 0xF4 then (4, 0x80, 0x8F)
    else (1, 0, 0)
  }

  /** The octets of the rune at i: 1 for an invalid or cut-off sequence. */
  function RuneSize(s: Bytes, i: nat): (size: nat)
    requires i < |s|
    ensures 1 <= size && i + size <= |s|
    ensures forall k :: i < k < i + size ==> IsContinuation(s[k])
  {
    var (n, low, high) := Leads(s[i]);
    if n == 1 || i + n > |s| then 1
    else if !(low <= s[i + 1] <= high) then 1
    else if forall k :: i + 1 < k < i + n ==> IsContinuation(s[k]) then n
    else 1
  }

  /** The variable name at cursor, if any, and the next octet to inspect. */
  function ReadToken(s: Bytes, cursor: nat): (token: (Bytes, nat))
    requires cursor < |s|
    ensures cursor < token.1 <= |s|
  {
    if s[cursor] != DOLLAR then ([], cursor + 1)
    else if cursor + 1 >= |s| then ([], |s|)
    else if s[cursor + 1] == DOLLAR then ([], cursor + 2)
    else if s[cursor + 1] == OPEN then
      var end := Find(s, cursor + 2, CLOSE);
      if end == |s| then ([], |s|) else (s[cursor + 2..end], end + 1)
    else ([], cursor + 1 + RuneSize(s, cursor + 1))
  }

  lemma {:induction false} NothingToRead(s: Bytes, i: nat, j: nat, name: Bytes)
    requires i <= j <= |s| && forall k :: i <= k < j ==> s[k] != DOLLAR
    ensures Reads(s, i, name) == Reads(s, j, name)
    decreases j - i
  {
    if i < j { NothingToRead(s, i + 1, j, name); }
  }

  /** Once nothing closes a reference, nothing is read. */
  lemma {:induction false} NeverClosed(s: Bytes, i: nat, name: Bytes)
    requires i <= |s| && CLOSE !in s[i..]
    ensures Reads(s, i, name) == 0
    decreases |s| - i
  {
    if i < |s| {
      assert forall k :: i <= k < |s| ==> s[k] in s[i..];
      assert !AtReference(s, i);
      var next := if s[i] == DOLLAR && i + 1 < |s| then i + 2 else i + 1;
      assert forall b :: b in s[next..] ==> b in s[i..];
      NeverClosed(s, next, name);
    }
  }

  /** One token of the tokenizer stands for as many reads as the expansion makes up to the token's
      end: skipping a whole rune and jumping to the end miss none. */
  lemma TokenAgrees(s: Bytes, cursor: nat, name: Bytes)
    requires cursor < |s| && name != []
    ensures var (reference, next) := ReadToken(s, cursor);
            Reads(s, cursor, name) == (if reference == name then 1 else 0) + Reads(s, next, name)
  {
    if s[cursor] == DOLLAR && cursor + 1 < |s| && s[cursor + 1] != DOLLAR {
      if s[cursor + 1] == OPEN {
        var end := Find(s, cursor + 2, CLOSE);
        if end == |s| { NeverClosed(s, cursor + 2, name); }
      } else {
        NothingToRead(s, cursor + 2, cursor + 1 + RuneSize(s, cursor + 1), name);
      }
    }
  }

  /** True exactly when the expansion of expr, for any values of the other variables, can differ
      between two values of POD_NAME. */
  method SubPathExprExpandsPodName(expr: Bytes, ghost env: Env) returns (expands: bool)
    ensures expands <==>
              exists v, w :: Expand(expr, 0, With(env, POD_NAME, v)) != Expand(expr, 0, With(env, POD_NAME, w))
  {
    DependsIffRead(expr, env, POD_NAME);
    var cursor := 0;
    while cursor < |expr|
      invariant cursor <= |expr| && Reads(expr, cursor, POD_NAME) == Reads(expr, 0, POD_NAME)
    {
      TokenAgrees(expr, cursor, POD_NAME);
      var (reference, next) := ReadToken(expr, cursor);
      if reference == POD_NAME {
        return true;
      }
      cursor := next;
    }
    return false;
  }
}
