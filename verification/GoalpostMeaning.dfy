/** What expressions and condition sets mean, and how far the guard's syntactic verdicts agree with it. */
module GoalpostMeaning {
  import opened Numeric
  import opened Text
  import opened Goalpost

  predicate Trips(op: Op, x: real, n: real) {
    match op
    case LT => x < n
    case LE => x <= n
    case GT => x > n
    case GE => x >= n
    case EQ => x == n
    case NE => x != n
  }

  /** A state of the world: the value of every field, and the truth of every free text. */
  datatype World = World(fields: string -> real, facts: string -> bool)

  predicate Fires(e: Expr, w: World) {
    Trips(e.op, w.fields(e.field), e.number)
  }

  predicate CondFires(num: Numerals, c: Condition, w: World) {
    match c
    case Narrative(_, text) => w.facts(text)
    case Quantitative(_, text) =>
      match Parse(num, text)
      case Some(e) => Fires(e, w)
      case None => w.facts(text)
  }

  predicate SetFires(num: Numerals, cs: seq<Condition>, w: World) {
    exists c <- cs :: CondFires(num, c, w)
  }

  // ---------- thresholds ----------

  /** A flagged change trips on strictly fewer values: never on a new one, and on some old one no more. */
  lemma LooserTripsStrictlyLess(new_: Expr, old_: Expr)
    requires LooserExpr(new_, old_)
    ensures forall x :: Trips(new_.op, x, new_.number) ==> Trips(old_.op, x, old_.number)
    ensures exists x :: Trips(old_.op, x, old_.number) && !Trips(new_.op, x, new_.number)
  {
    var between := (new_.number + old_.number) / 2.0;
    assert Trips(old_.op, between, old_.number) && !Trips(new_.op, between, new_.number);
  }

  predicate Ordered(op: Op) {
    op in {LT, LE, GT, GE}
  }

  predicate Inclusive(op: Op) {
    op in {LE, GE}
  }

  /** The weakening the flag misses inside one family: the bound stays, but no longer counts. */
  predicate BoundaryDropped(new_: Expr, old_: Expr) {
    new_.number == old_.number && Inclusive(old_.op) && !Inclusive(new_.op)
  }

  /** Within one field and one ordered family, a change is weaker exactly when it is flagged or drops the
      boundary. */
  lemma WeakerIffFlaggedOrBoundary(new_: Expr, old_: Expr)
    requires new_.field == old_.field && Ordered(old_.op) && OpFamily(new_.op) == OpFamily(old_.op)
    ensures (exists x :: Trips(old_.op, x, old_.number) && !Trips(new_.op, x, new_.number))
       <==> LooserExpr(new_, old_) || BoundaryDropped(new_, old_)
  {
    if LooserExpr(new_, old_) {
      LooserTripsStrictlyLess(new_, old_);
    } else if BoundaryDropped(new_, old_) {
      assert Trips(old_.op, old_.number, old_.number) && !Trips(new_.op, old_.number, new_.number);
    }
  }

  /** Exactly when one threshold on a field covers another, for all thirty-six pairs of operators. */
  predicate Covers(op: Op, n: real, oldOp: Op, m: real) {
    match oldOp
    case LT => op in {LT, LE, NE} && n >= m
    case LE => (op in {LT, NE} && n > m) || (op == LE && n >= m)
    case GT => op in {GT, GE, NE} && n <= m
    case GE => (op in {GT, NE} && n < m) || (op == GE && n <= m)
    case EQ => Trips(op, m, n)
    case NE => op == NE && n == m
  }

  /** A value on which the old threshold trips and the new one does not. */
  function Witness(op: Op, n: real, oldOp: Op, m: real): real {
    match oldOp
    case LT => if op in {LT, LE} then (n + m) / 2.0 else if op == NE then n else Min(n, m) - 1.0
    case LE => if op == LT then m else if op == LE then (n + m) / 2.0 else if op == NE then n else Min(n, m) - 1.0
    case GT => if op in {GT, GE} then (n + m) / 2.0 else if op == NE then n else Max(n, m) + 1.0
    case GE => if op == GT then m else if op == GE then (n + m) / 2.0 else if op == NE then n else Max(n, m) + 1.0
    case EQ => m
    case NE => if op in {LT, LE, EQ} then Max(n, m) + 1.0 else if op in {GT, GE} then Min(n, m) - 1.0 else n
  }

  lemma CoversIff(op: Op, n: real, oldOp: Op, m: real)
    ensures Covers(op, n, oldOp, m) ==> forall x :: Trips(oldOp, x, m) ==> Trips(op, x, n)
    ensures !Covers(op, n, oldOp, m) ==>
              Trips(oldOp, Witness(op, n, oldOp, m), m) && !Trips(op, Witness(op, n, oldOp, m), n)
  {
  }

  /** Every threshold can trip, and can fail to. */
  lemma TripsSometimes(op: Op, n: real) returns (yes: real, no: real)
    ensures Trips(op, yes, n) && !Trips(op, no, n)
  {
    match op
    case LT => yes, no := n - 1.0, n;
    case LE => yes, no := n, n + 1.0;
    case GT => yes, no := n + 1.0, n;
    case GE => yes, no := n, n - 1.0;
    case EQ => yes, no := n, n + 1.0;
    case NE => yes, no := n + 1.0, n;
  }

  // ---------- one condition ----------

  /** The new condition fires in every world in which the old one does. */
  ghost predicate Keeps(num: Numerals, new_: Condition, old_: Condition) {
    forall w: World :: CondFires(num, old_, w) ==> CondFires(num, new_, w)
  }

  /** The same, decided from the two texts alone. */
  predicate KeepsText(num: Numerals, newText: string, oldText: string) {
    match (Parse(num, newText), Parse(num, oldText))
    case (Some(a), Some(b)) => a.field == b.field && Covers(a.op, a.number, b.op, b.number)
    case (None, None) => newText == oldText
    case _ => false
  }

  /** A world in which one field has one value, every other another, and one text is true. */
  function WorldWith(field: string, x: real, other: real, fact: string): World {
    World(f => if f == field then x else other, t => t == fact)
  }

  lemma QuantitativeKeepsIff(num: Numerals, name: string, newText: string, oldText: string)
    ensures Keeps(num, Quantitative(name, newText), Quantitative(name, oldText)) <==> KeepsText(num, newText, oldText)
  {
    var new_, old_ := Quantitative(name, newText), Quantitative(name, oldText);
    if KeepsText(num, newText, oldText) {
      if Parse(num, newText).Some? {
        var a, b := Parse(num, newText).value, Parse(num, oldText).value;
        CoversIff(a.op, a.number, b.op, b.number);
      }
    } else {
      var w := Counterworld(num, newText, oldText);
      assert CondFires(num, old_, w) && !CondFires(num, new_, w);
    }
  }

  lemma Counterworld(num: Numerals, newText: string, oldText: string) returns (w: World)
    requires !KeepsText(num, newText, oldText)
    ensures CondFires(num, Quantitative("", oldText), w) && !CondFires(num, Quantitative("", newText), w)
    ensures forall name ::
              CondFires(num, Quantitative(name, oldText), w) && !CondFires(num, Quantitative(name, newText), w)
  {
    match (Parse(num, newText), Parse(num, oldText)) {
      case (Some(a), Some(b)) =>
        if a.field == b.field {
          CoversIff(a.op, a.number, b.op, b.number);
          w := WorldWith(a.field, Witness(a.op, a.number, b.op, b.number), 0.0, "");
        } else {
          var _, no := TripsSometimes(a.op, a.number);
          var yes, _ := TripsSometimes(b.op, b.number);
          w := WorldWith(a.field, no, yes, "");
        }
      case (Some(a), None) =>
        var _, no := TripsSometimes(a.op, a.number);
        w := WorldWith(a.field, no, no, oldText);
      case (None, Some(b)) =>
        var yes, _ := TripsSometimes(b.op, b.number);
        w := WorldWith(b.field, yes, yes, newText + "!");
      case (None, None) =>
        w := WorldWith("", 0.0, 0.0, oldText);
    }
  }

  // ---------- condition sets ----------

  predicate DistinctlyNamed(cs: seq<Condition>) {
    (forall c <- cs :: c.name != "") && forall i, j | 0 <= i < j < |cs| :: cs[i].name != cs[j].name
  }

  lemma ByNameOfDistinct(cs: seq<Condition>, c: Condition)
    requires DistinctlyNamed(cs) && c in cs
    ensures c.name in ByName(cs) && ByName(cs)[c.name] == c
  {
    hide ByName;
    var i :| 0 <= i < |cs| && cs[i] == c;
    assert cs == cs[..i] + [c] + cs[i + 1..];
    LaterReplaces(cs[..i], c, cs[i + 1..]);
  }

  /** Every original condition is still there, under its name, and fires wherever it did. */
  ghost predicate EachKept(num: Numerals, original: seq<Condition>, updated: seq<Condition>) {
    forall c <- original :: c.name in ByName(updated) && Keeps(num, ByName(updated)[c.name], c)
  }

  /** A quantitative condition the report cannot vouch for: its new version is weaker, and was not flagged. */
  predicate Slipped(num: Numerals, c: Condition, updated: seq<Condition>) {
    c.Quantitative? && c.name in ByName(updated) && ByName(updated)[c.name].Quantitative?
    && !KeepsText(num, ByName(updated)[c.name].text, c.text)
  }

  predicate SomeMissed(num: Numerals, original: seq<Condition>, updated: seq<Condition>) {
    exists c <- original :: Slipped(num, c, updated)
  }

  /** The contract of the analysis leaves nothing open: two reports on the same conditions are equal. */
  lemma ReportUnique(num: Numerals, original: seq<Condition>, updated: seq<Condition>, a: Report, b: Report)
    requires IsReport(num, original, updated, a) && IsReport(num, original, updated, b)
    ensures a == b
  {
    SortedUnique(a.dropped, b.dropped);
    SortedUnique(a.loosened, b.loosened);
    SortedUnique(a.added, b.added);
  }

  predicate Clean(r: Report) {
    !r.weakened && !r.needsReview
  }

  lemma CleanMeans(num: Numerals, original: seq<Condition>, updated: seq<Condition>, r: Report, c: Condition)
    requires IsReport(num, original, updated, r) && Clean(r) && DistinctlyNamed(original) && c in original
    ensures c.name in ByName(updated) && !IsLoosened(num, c, ByName(updated)[c.name])
    ensures !ForReview(c, ByName(updated)[c.name])
  {
    var o, u := ByName(original), ByName(updated);
    ByNameOfDistinct(original, c);
    assert r.dropped == [] && r.loosened == [];
    assert c.name !in o.Keys - u.Keys by { assert c.name !in r.dropped; }
    assert c.name in Shared(o, u);
    assert c.name !in LoosenedNames(num, o, u) by { assert c.name !in r.loosened; }
  }

  /** For a clean report on distinctly named conditions: every original condition is kept exactly when
      none slipped through unflagged, which is decidable from the texts. */
  lemma CleanKeepsIff(num: Numerals, original: seq<Condition>, updated: seq<Condition>, r: Report)
    requires IsReport(num, original, updated, r) && Clean(r) && DistinctlyNamed(original)
    ensures EachKept(num, original, updated) <==> !SomeMissed(num, original, updated)
  {
    hide IsReport, Parse, CondFires, KeepsText;
    var u := ByName(updated);
    forall c | c in original
      ensures c.name in u
      ensures Keeps(num, u[c.name], c)
        <==> !Slipped(num, c, updated)
    {
      CleanMeans(num, original, updated, r, c);
      if c.Quantitative? {
        QuantitativeKeepsIff(num, c.name, u[c.name].text, c.text);
      }
    }
  }

  /** Keeping each condition keeps the whole set's trigger. */
  lemma EachKeptFires(num: Numerals, original: seq<Condition>, updated: seq<Condition>, w: World)
    requires EachKept(num, original, updated) && SetFires(num, original, w)
    ensures SetFires(num, updated, w)
  {
    var c :| c in original && CondFires(num, c, w);
    assert Keeps(num, ByName(updated)[c.name], c);
    assert ByName(updated)[c.name] in updated;
  }

  /** The edits the flag was built for: a shared quantitative condition keeps its text, or keeps its field
      and an ordered operator. */
  predicate PlainEdit(num: Numerals, newText: string, oldText: string) {
    newText == oldText
    || (var a, b := Parse(num, newText), Parse(num, oldText);
        a.Some? && b.Some? && a.value.field == b.value.field && a.value.op == b.value.op && Ordered(b.value.op))
  }

  /** On such edits the guard is complete: after a clean report the updated set fires whenever the
      original would. */
  lemma CleanPlainEditsFire(num: Numerals, original: seq<Condition>, updated: seq<Condition>, r: Report, w: World)
    requires IsReport(num, original, updated, r) && Clean(r) && DistinctlyNamed(original)
    requires forall c <- original | c.Quantitative? && c.name in ByName(updated) ::
               PlainEdit(num, ByName(updated)[c.name].text, c.text)
    requires SetFires(num, original, w)
    ensures SetFires(num, updated, w)
  {
    hide IsReport, Parse, CondFires;
    var u := ByName(updated);
    forall c | c in original && c.Quantitative? && c.name in u && u[c.name].Quantitative?
      ensures KeepsText(num, u[c.name].text, c.text)
    {
      CleanMeans(num, original, updated, r, c);
      PlainUnflaggedKeeps(num, u[c.name].text, c.text);
    }
    CleanKeepsIff(num, original, updated, r);
    EachKeptFires(num, original, updated, w);
  }

  lemma PlainUnflaggedKeeps(num: Numerals, newText: string, oldText: string)
    requires PlainEdit(num, newText, oldText) && !Looser(num, newText, oldText)
    ensures KeepsText(num, newText, oldText)
  {
    hide Parse;
  }

  /** A condition reported as loosened fires in strictly fewer worlds than it did. */
  lemma LoosenedFiresLess(num: Numerals, original: seq<Condition>, updated: seq<Condition>, r: Report, name: string)
    requires IsReport(num, original, updated, r) && name in r.loosened
    ensures name in ByName(original) && name in ByName(updated)
    ensures var old_, new_ := ByName(original)[name], ByName(updated)[name];
            Keeps(num, old_, new_) && !Keeps(num, new_, old_)
  {
    hide Parse;
    assert name in LoosenedNames(num, ByName(original), ByName(updated));
    var old_, new_ := ByName(original)[name], ByName(updated)[name];
    var a, b := Parse(num, new_.text).value, Parse(num, old_.text).value;
    LooserTripsStrictlyLess(a, b);
    CoversIff(b.op, b.number, a.op, a.number);
    CoversIff(a.op, a.number, b.op, b.number);
    QuantitativeKeepsIff(num, name, new_.text, old_.text);
    QuantitativeKeepsIff(num, name, old_.text, new_.text);
  }
}
