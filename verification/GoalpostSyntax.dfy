/** Printing and parsing of threshold expressions undo each other. */
module GoalpostSyntax {
  import opened Wrappers
  import opened Text
  import opened Goalpost

  predicate IsOpChar(c: char) {
    c in {'<', '>', '=', '!'}
  }

  predicate NoOpChars(s: string) {
    forall c <- s :: !IsOpChar(c)
  }

  /** What can stand for a field or a numeral: one non-empty word without operator characters. */
  predicate Word(s: string) {
    s != "" && NoSpace(s) && NoOpChars(s)
  }

  datatype Spacing = Spacing(before: string, left: string, right: string, after: string)

  predicate IsSpacing(p: Spacing) {
    AllSpace(p.before) && AllSpace(p.left) && AllSpace(p.right) && AllSpace(p.after)
  }

  function Core(field: string, op: Op, numeral: string, p: Spacing): string {
    (field + p.left) + OpText(op) + (p.right + numeral)
  }

  function Print(field: string, op: Op, numeral: string, p: Spacing): string {
    p.before + Core(field, op, numeral, p) + p.after
  }

  // ---------- trimming ----------

  lemma {:induction false} TrimStartSkips(w: string, s: string)
    requires AllSpace(w)
    ensures TrimStart(w + s) == TrimStart(s)
  {
    if w == "" {
      assert w + s == s;
    } else {
      assert w[0] in w;
      assert (w + s)[1..] == w[1..] + s;
      TrimStartSkips(w[1..], s);
    }
  }

  lemma {:induction false} TrimEndSkips(s: string, w: string)
    requires AllSpace(w)
    ensures TrimEnd(s + w) == TrimEnd(s)
  {
    if w == "" {
      assert s + w == s;
    } else {
      var last := |w| - 1;
      assert w[last] in w;
      assert (s + w)[..|s + w| - 1] == s + w[..last];
      TrimEndSkips(s, w[..last]);
    }
  }

  /** Trimming removes exactly the surrounding white space. */
  lemma TrimUnwraps(w: string, s: string, v: string)
    requires AllSpace(w) && AllSpace(v)
    requires s != "" && !IsSpace(s[0]) && !IsSpace(s[|s| - 1])
    ensures Trim(w + s + v) == s
  {
    assert w + s + v == w + (s + v);
    TrimStartSkips(w, s + v);
    assert TrimStart(s + v) == s + v;
    TrimEndSkips(s, v);
  }

  lemma {:induction false} TrimStartParts(s: string) returns (w: string)
    ensures AllSpace(w) && s == w + TrimStart(s)
    ensures TrimStart(s) != "" ==> !IsSpace(TrimStart(s)[0])
  {
    if s != "" && IsSpace(s[0]) {
      var rest := TrimStartParts(s[1..]);
      w := [s[0]] + rest;
    } else {
      w := "";
    }
  }

  lemma {:induction false} TrimEndParts(s: string) returns (w: string)
    ensures AllSpace(w) && s == TrimEnd(s) + w
  {
    if s != "" && IsSpace(s[|s| - 1]) {
      var rest := TrimEndParts(s[..|s| - 1]);
      w := rest + [s[|s| - 1]];
    } else {
      w := "";
    }
  }

  lemma TrimParts(s: string) returns (w: string, v: string)
    ensures AllSpace(w) && AllSpace(v) && s == w + Trim(s) + v
  {
    w := TrimStartParts(s);
    v := TrimEndParts(TrimStart(s));
    assert w + TrimEnd(TrimStart(s)) + v == w + (TrimEnd(TrimStart(s)) + v);
  }

  // ---------- finding the operator ----------

  lemma SpaceIsNotOp(w: string)
    requires AllSpace(w)
    ensures NoOpChars(w)
  {
    forall c | c in w ensures !IsOpChar(c) { assert IsSpace(c); }
  }

  /** In operator-free text around one operator, no other operator at least as long occurs, and that one
      occurs only in its place. */
  lemma FindsOnly(a: string, op: Op, b: string, other: Op)
    requires NoOpChars(a) && NoOpChars(b) && |OpText(other)| >= |OpText(op)|
    ensures Find(a + OpText(op) + b, OpText(other)) == if other == op then Some(|a|) else None
  {
    var t, p := OpText(op), OpText(other);
    var s := a + t + b;
    forall i | MatchesAt(s, p, i)
      ensures i == |a| && p == t
    {
      InsideOperator(a, op, b, i, |p|);
    }
    assert s[|a|..|a| + |t|] == t;
    assert MatchesAt(s, t, |a|);
    OpTextInjective(op, other);
  }

  lemma InsideOperator(a: string, op: Op, b: string, i: int, n: nat)
    requires NoOpChars(a) && NoOpChars(b) && n >= |OpText(op)|
    requires var s := a + OpText(op) + b; 0 <= i && i + n <= |s| && forall k | i <= k < i + n :: IsOpChar(s[k])
    ensures i == |a| && n == |OpText(op)|
    ensures (a + OpText(op) + b)[i..i + n] == OpText(op)
  {
    var t := OpText(op);
    var s := a + t + b;
    OutsideIsPlain(a, t, b);
    assert IsOpChar(s[i]) && IsOpChar(s[i + n - 1]);
    assert i >= |a| && i + n - 1 < |a| + |t|;
  }

  lemma OutsideIsPlain(a: string, t: string, b: string)
    requires NoOpChars(a) && NoOpChars(b)
    ensures forall k | 0 <= k < |a + t + b| && IsOpChar((a + t + b)[k]) :: |a| <= k < |a| + |t|
  {
    forall k | 0 <= k < |a + t + b| && !(|a| <= k < |a| + |t|)
      ensures !IsOpChar((a + t + b)[k])
    {
      if k < |a| {
        assert a[k] in a;
      } else {
        assert b[k - |a| - |t|] in b;
      }
    }
  }

  lemma OpTextInjective(a: Op, b: Op)
    ensures OpText(a) == OpText(b) <==> a == b
  {
    assert OpText(LE)[0] == '<' && OpText(GE)[0] == '>' && OpText(EQ)[0] == '=' && OpText(NE)[0] == '!'
        && OpText(LT)[0] == '<' && OpText(GT)[0] == '>';
    assert |OpText(LT)| == 1 && |OpText(GT)| == 1 && |OpText(LE)| == 2 && |OpText(GE)| == 2;
  }

  function Rank(op: Op): (k: nat)
    ensures k < |CANDIDATES| && CANDIDATES[k] == op
  {
    match op
    case LE => 0
    case GE => 1
    case EQ => 2
    case NE => 3
    case LT => 4
    case GT => 5
  }

  /** The operators tried before this one are at least as long. */
  lemma EarlierAreLonger(k: nat, j: nat)
    requires j <= k < |CANDIDATES|
    ensures |OpText(CANDIDATES[j])| >= |OpText(CANDIDATES[k])|
    ensures j < k ==> CANDIDATES[j] != CANDIDATES[k]
  {
  }

  // ---------- round trip ----------

  lemma TryOwnOperator(num: Numerals, field: string, op: Op, numeral: string, p: Spacing)
    requires Word(field) && Word(numeral) && IsSpacing(p) && num(numeral).Some?
    ensures TryOp(num, Core(field, op, numeral, p), op) == Settled(Some(Expr(field, op, num(numeral).value)))
  {
    var s, t := Core(field, op, numeral, p), OpText(op);
    var a, b := field + p.left, p.right + numeral;
    SpaceIsNotOp(p.left);
    SpaceIsNotOp(p.right);
    FindsOnly(a, op, b, op);
    assert s[..|a|] == a && s[|a| + |t|..] == b;
    TrimUnwraps("", field, p.left);
    assert "" + field + p.left == a;
    TrimUnwraps(p.right, numeral, "");
    assert p.right + numeral + "" == b;
  }

  lemma SkipsOtherOperator(num: Numerals, field: string, op: Op, numeral: string, p: Spacing, other: Op)
    requires Word(field) && Word(numeral) && IsSpacing(p)
    requires other != op && |OpText(other)| >= |OpText(op)|
    ensures TryOp(num, Core(field, op, numeral, p), other) == Skipped
  {
    SpaceIsNotOp(p.left);
    SpaceIsNotOp(p.right);
    FindsOnly(field + p.left, op, p.right + numeral, other);
  }

  lemma {:induction false} ParseReaches(num: Numerals, field: string, numeral: string, p: Spacing, k: nat, j: nat)
    requires Word(field) && Word(numeral) && IsSpacing(p) && num(numeral).Some?
    requires j <= k < |CANDIDATES|
    ensures ParseWith(num, Core(field, CANDIDATES[k], numeral, p), CANDIDATES[j..])
         == Some(Expr(field, CANDIDATES[k], num(numeral).value))
    decreases k - j
  {
    hide TryOp, Core, OpText;
    EarlierAreLonger(k, j);
    assert CANDIDATES[j..][0] == CANDIDATES[j] && CANDIDATES[j..][1..] == CANDIDATES[j + 1..];
    if j == k {
      TryOwnOperator(num, field, CANDIDATES[k], numeral, p);
    } else {
      SkipsOtherOperator(num, field, CANDIDATES[k], numeral, p, CANDIDATES[j]);
      ParseReaches(num, field, numeral, p, k, j + 1);
    }
  }

  /** Printing a triple with any spacing and parsing it gives the triple back. */
  lemma PrintThenParse(num: Numerals, field: string, op: Op, numeral: string, p: Spacing)
    requires Word(field) && Word(numeral) && IsSpacing(p) && num(numeral).Some?
    ensures Parse(num, Print(field, op, numeral, p)) == Some(Expr(field, op, num(numeral).value))
  {
    var core := Core(field, op, numeral, p);
    assert field[0] in field && numeral[|numeral| - 1] in numeral;
    assert core[0] == field[0] && core[|core| - 1] == numeral[|numeral| - 1];
    TrimUnwraps(p.before, core, p.after);
    ParseReaches(num, field, numeral, p, Rank(op), 0);
    assert CANDIDATES[0..] == CANDIDATES;
  }

  lemma {:induction false} ParsedByOne(num: Numerals, s: string, ops: seq<Op>) returns (op: Op)
    requires ParseWith(num, s, ops).Some?
    ensures TryOp(num, s, op) == Settled(ParseWith(num, s, ops))
  {
    match TryOp(num, s, ops[0])
    case Settled(_) => op := ops[0];
    case Skipped => op := ParsedByOne(num, s, ops[1..]);
  }

  lemma Regroup(lead: string, a: string, t: string, b: string, trail: string)
    ensures (lead + a) + t + (b + trail) == lead + (a + t + b) + trail
  {
  }

  lemma Rewrap(before: string, lead: string, core: string, trail: string, after: string)
    ensures before + (lead + core + trail) + after == (before + lead) + core + (trail + after)
  {
  }

  lemma TriedSplits(num: Numerals, s: string, op: Op) returns (lhs: string, rhs: string)
    requires TryOp(num, s, op).Settled? && TryOp(num, s, op).result.Some?
    ensures var e := TryOp(num, s, op).result.value;
            && s == lhs + OpText(op) + rhs && e.op == op
            && e.field == Trim(lhs) && e.field != "" && NoSpace(e.field)
            && num(Trim(rhs)) == Some(e.number)
  {
    var idx := Find(s, OpText(op)).value;
    lhs, rhs := s[..idx], s[idx + |OpText(op)|..];
  }

  /** Whatever parses is a printing of what it parsed to: nothing is invented and nothing ignored. */
  lemma ParseThenPrint(num: Numerals, s: string) returns (numeral: string, p: Spacing)
    requires Parse(num, s).Some?
    ensures var e := Parse(num, s).value;
            && IsSpacing(p) && s == Print(e.field, e.op, numeral, p)
            && e.field != "" && NoSpace(e.field) && num(numeral) == Some(e.number)
  {
    hide TryOp, ParseWith, Trim, OpText;
    var e := Parse(num, s).value;
    var before, after := TrimParts(s);
    var op := ParsedByOne(num, Trim(s), CANDIDATES);
    var lhs, rhs := TriedSplits(num, Trim(s), op);
    var lead, left := TrimParts(lhs);
    var right, trail := TrimParts(rhs);
    numeral := Trim(rhs);
    p := Spacing(before + lead, left, right, trail + after);
    SpacingJoins(before, lead, left, right, trail, after);
    Reassociate(lead, e.field, left, OpText(op), right, numeral, trail);
    Rewrap(before, lead, Core(e.field, op, numeral, p), trail, after);
  }

  lemma SpacingJoins(before: string, lead: string, left: string, right: string, trail: string, after: string)
    requires AllSpace(before) && AllSpace(lead) && AllSpace(left)
    requires AllSpace(right) && AllSpace(trail) && AllSpace(after)
    ensures IsSpacing(Spacing(before + lead, left, right, trail + after))
  {
  }

  lemma Reassociate(lead: string, field: string, left: string, t: string, right: string, numeral: string, trail: string)
    ensures (lead + field + left) + t + (right + numeral + trail)
         == lead + ((field + left) + t + (right + numeral)) + trail
  {
    assert lead + field + left == lead + (field + left);
    assert right + numeral + trail == (right + numeral) + trail;
    Regroup(lead, field + left, t, right + numeral, trail);
  }
}
