/** Exactly when an updated set of conditions fires whenever the original would, decided from the texts at
    finitely many test points. */
module GoalpostCoverage {
  import opened Numeric
  import opened Wrappers
  import opened Sets
  import opened Goalpost
  import opened GoalpostMeaning
  import opened GoalpostSyntax

  // ---------- thresholds on one field ----------

  predicate CoveredAt(es: seq<Expr>, x: real) {
    exists e <- es :: Trips(e.op, x, e.number)
  }

  predicate GuardTrips(guard: Option<Expr>, x: real) {
    guard.None? || Trips(guard.value.op, x, guard.value.number)
  }

  /** Every number, every midpoint of two, and a point beyond each. */
  function TestPoints(ns: set<real>): set<real> {
    (set a, b | a in ns && b in ns :: (a + b) / 2.0) + (set a | a in ns :: a - 1.0) + (set a | a in ns :: a + 1.0)
  }

  function Numbers(es: seq<Expr>, guard: Option<Expr>): set<real> {
    (set e | e in es :: e.number) + (if guard.Some? then {guard.value.number} else {0.0})
  }

  /** The thresholds trip at every test point at which the guard does (everywhere, when there is none). */
  predicate CoversOnPoints(es: seq<Expr>, guard: Option<Expr>) {
    forall p <- TestPoints(Numbers(es, guard)) :: GuardTrips(guard, p) ==> CoveredAt(es, p)
  }

  lemma {:induction false} Largest(s: set<real>) returns (m: real)
    requires s != {}
    ensures m in s && forall x <- s :: x <= m
    decreases |s|
  {
    var x := SomeMember(s);
    if s - {x} == {} {
      assert forall y :: y in s ==> y in s - {x} || y == x;
      m := x;
    } else {
      assert forall y :: y in s <==> y == x || y in s - {x};
      var rest := Largest(s - {x});
      m := Max(x, rest);
    }
  }

  lemma {:induction false} Smallest(s: set<real>) returns (m: real)
    requires s != {}
    ensures m in s && forall x <- s :: m <= x
    decreases |s|
  {
    var x := SomeMember(s);
    if s - {x} == {} {
      assert forall y :: y in s ==> y in s - {x} || y == x;
      m := x;
    } else {
      assert forall y :: y in s <==> y == x || y in s - {x};
      var rest := Smallest(s - {x});
      m := Min(x, rest);
    }
  }

  predicate SameSide(x: real, p: real, n: real) {
    (x < n <==> p < n) && (x > n <==> p > n)
  }

  lemma IsTestPoint(ns: set<real>, a: real, b: real)
    requires a in ns && b in ns
    ensures (a + b) / 2.0 in TestPoints(ns) && a - 1.0 in TestPoints(ns) && a + 1.0 in TestPoints(ns)
  {
  }

  /** Every value has a test point on the same side of all the numbers. */
  lemma Representative(ns: set<real>, x: real) returns (p: real)
    requires ns != {}
    ensures p in TestPoints(ns) && forall n <- ns :: SameSide(x, p, n)
  {
    hide TestPoints;
    var below, above := set n | n in ns && n < x, set n | n in ns && n > x;
    assert forall n <- ns :: n in below || n in above || n == x;
    if x in ns {
      p := x;
      assert (x + x) / 2.0 == x;
      IsTestPoint(ns, x, x);
    } else if below == {} {
      var n := SomeMember(ns);
      assert n in above;
      var hi := Smallest(above);
      p := hi - 1.0;
      IsTestPoint(ns, hi, hi);
      forall n | n in ns ensures SameSide(x, p, n) { assert n !in below; assert n in above; }
    } else if above == {} {
      var lo := Largest(below);
      p := lo + 1.0;
      IsTestPoint(ns, lo, lo);
      forall n | n in ns ensures SameSide(x, p, n) { assert n !in above; assert n in below; }
    } else {
      var lo := Largest(below);
      var hi := Smallest(above);
      p := (lo + hi) / 2.0;
      IsTestPoint(ns, lo, hi);
      forall n | n in ns ensures SameSide(x, p, n) { assert n in below || n in above; }
    }
  }

  lemma SameSideTrips(op: Op, x: real, p: real, n: real)
    requires SameSide(x, p, n)
    ensures Trips(op, x, n) <==> Trips(op, p, n)
  {
  }

  /** The test points decide coverage of all values. */
  lemma PointsDecide(es: seq<Expr>, guard: Option<Expr>)
    ensures CoversOnPoints(es, guard) <==> forall x: real :: GuardTrips(guard, x) ==> CoveredAt(es, x)
  {
    hide TestPoints, Trips;
    if CoversOnPoints(es, guard) {
      forall x: real | GuardTrips(guard, x)
        ensures CoveredAt(es, x)
      {
        var ns := Numbers(es, guard);
        assert (if guard.Some? then guard.value.number else 0.0) in ns;
        var p := Representative(ns, x);
        if guard.Some? {
          SameSideTrips(guard.value.op, x, p, guard.value.number);
        }
        var e :| e in es && Trips(e.op, p, e.number);
        assert e.number in ns;
        SameSideTrips(e.op, x, p, e.number);
      }
    }
  }

  // ---------- condition sets ----------

  function Expression(num: Numerals, c: Condition): Option<Expr> {
    if c.Quantitative? then Parse(num, c.text) else None
  }

  /** The thresholds a set puts on one field. */
  function Thresholds(num: Numerals, cs: seq<Condition>, field: string): (es: seq<Expr>)
    ensures forall e :: e in es <==> e.field == field && exists c <- cs :: Expression(num, c) == Some(e)
  {
    if cs == [] then []
    else
      var rest, e := Thresholds(num, cs[1..], field), Expression(num, cs[0]);
      assert forall c :: c in cs <==> c == cs[0] || c in cs[1..];
      if e.Some? && e.value.field == field then [e.value] + rest else rest
  }

  /** Some field's thresholds leave no value out, so the set always fires. */
  predicate Exhaustive(num: Numerals, cs: seq<Condition>) {
    exists c <- cs :: Expression(num, c).Some?
                      && CoversOnPoints(Thresholds(num, cs, Expression(num, c).value.field), None)
  }

  /** The set repeats a text that is not an expression, or its thresholds on the field cover this one. */
  predicate ConditionCovered(num: Numerals, c: Condition, cs: seq<Condition>) {
    match Expression(num, c)
    case None => exists d <- cs :: Expression(num, d).None? && d.text == c.text
    case Some(e) => CoversOnPoints(Thresholds(num, cs, e.field), Some(e))
  }

  predicate SetCovered(num: Numerals, original: seq<Condition>, updated: seq<Condition>) {
    Exhaustive(num, updated) || forall c <- original :: ConditionCovered(num, c, updated)
  }

  /** The updated set fires in every world in which the original one does. */
  ghost predicate SetKeeps(num: Numerals, original: seq<Condition>, updated: seq<Condition>) {
    forall w: World :: SetFires(num, original, w) ==> SetFires(num, updated, w)
  }

  lemma FiresIs(num: Numerals, c: Condition, w: World)
    ensures CondFires(num, c, w) <==> match Expression(num, c) case Some(e) => Fires(e, w) case None => w.facts(c.text)
  {
  }

  lemma ThresholdFires(num: Numerals, cs: seq<Condition>, field: string, w: World)
    requires CoveredAt(Thresholds(num, cs, field), w.fields(field))
    ensures SetFires(num, cs, w)
  {
    hide Parse, CondFires, Trips;
    var e :| e in Thresholds(num, cs, field) && Trips(e.op, w.fields(field), e.number);
    var c :| c in cs && Expression(num, c) == Some(e);
    FiresIs(num, c, w);
  }

  lemma ExhaustiveFires(num: Numerals, cs: seq<Condition>, w: World)
    requires Exhaustive(num, cs)
    ensures SetFires(num, cs, w)
  {
    hide Parse, CoversOnPoints, SetFires, Thresholds;
    var c :| c in cs && Expression(num, c).Some?
             && CoversOnPoints(Thresholds(num, cs, Expression(num, c).value.field), None);
    var field := Expression(num, c).value.field;
    PointsDecide(Thresholds(num, cs, field), None);
    assert GuardTrips(None, w.fields(field));
    ThresholdFires(num, cs, field, w);
  }

  lemma CoveredFires(num: Numerals, c: Condition, cs: seq<Condition>, w: World)
    requires ConditionCovered(num, c, cs) && CondFires(num, c, w)
    ensures SetFires(num, cs, w)
  {
    hide Parse, CoversOnPoints, CondFires, Thresholds, Trips;
    FiresIs(num, c, w);
    match Expression(num, c)
    case None =>
      var d :| d in cs && Expression(num, d).None? && d.text == c.text;
      FiresIs(num, d, w);
    case Some(e) =>
      PointsDecide(Thresholds(num, cs, e.field), Some(e));
      assert GuardTrips(Some(e), w.fields(e.field));
      ThresholdFires(num, cs, e.field, w);
  }

  /** A value the thresholds leave out, if there is one. */
  ghost function LeftOut(es: seq<Expr>): (x: real)
    ensures (exists y: real :: !CoveredAt(es, y)) ==> !CoveredAt(es, x)
  {
    if exists y: real :: !CoveredAt(es, y) then var y: real :| !CoveredAt(es, y); y else 0.0
  }

  /** A world that keeps every threshold quiet, except for one chosen field value and one true text. */
  ghost function QuietWorld(num: Numerals, cs: seq<Condition>, field: Option<string>, x: real,
                            fact: Option<string>): World
  {
    World(f => if field == Some(f) then x else LeftOut(Thresholds(num, cs, f)), t => fact == Some(t))
  }

  lemma StaysQuiet(num: Numerals, cs: seq<Condition>, field: Option<string>, x: real, fact: Option<string>)
    requires !Exhaustive(num, cs)
    requires field.Some? ==> !CoveredAt(Thresholds(num, cs, field.value), x)
    requires fact.Some? ==> forall d <- cs :: Expression(num, d).None? ==> d.text != fact.value
    ensures !SetFires(num, cs, QuietWorld(num, cs, field, x, fact))
  {
    hide Parse, CondFires, CoversOnPoints, Thresholds, Trips;
    var w := QuietWorld(num, cs, field, x, fact);
    forall d | d in cs
      ensures !CondFires(num, d, w)
    {
      FiresIs(num, d, w);
      if Expression(num, d).Some? {
        var e := Expression(num, d).value;
        var es := Thresholds(num, cs, e.field);
        assert e in es;
        PointsDecide(es, None);
        assert exists y: real :: !CoveredAt(es, y);
        assert !CoveredAt(es, w.fields(e.field));
      }
    }
  }

  lemma UncoveredSilent(num: Numerals, c: Condition, cs: seq<Condition>) returns (w: World)
    requires !Exhaustive(num, cs) && !ConditionCovered(num, c, cs)
    ensures CondFires(num, c, w) && !SetFires(num, cs, w)
  {
    hide Parse, CondFires, CoversOnPoints, Thresholds, SetFires, Exhaustive;
    match Expression(num, c) {
      case None =>
        w := QuietWorld(num, cs, None, 0.0, Some(c.text));
        StaysQuiet(num, cs, None, 0.0, Some(c.text));
      case Some(e) =>
        var es := Thresholds(num, cs, e.field);
        PointsDecide(es, Some(e));
        var x: real :| GuardTrips(Some(e), x) && !CoveredAt(es, x);
        w := QuietWorld(num, cs, Some(e.field), x, None);
        StaysQuiet(num, cs, Some(e.field), x, None);
    }
    FiresIs(num, c, w);
  }

  /** Whatever the report, the updated set fires whenever the original would exactly when it always fires or
      covers every original condition: each text repeated, each threshold within the union of its field's. */
  lemma SetKeepsIff(num: Numerals, original: seq<Condition>, updated: seq<Condition>)
    ensures SetKeeps(num, original, updated) <==> SetCovered(num, original, updated)
  {
    hide Parse, CondFires, ConditionCovered, Exhaustive;
    if SetCovered(num, original, updated) {
      forall w: World | SetFires(num, original, w)
        ensures SetFires(num, updated, w)
      {
        var c :| c in original && CondFires(num, c, w);
        if Exhaustive(num, updated) {
          ExhaustiveFires(num, updated, w);
        } else {
          CoveredFires(num, c, updated, w);
        }
      }
    } else {
      var c :| c in original && !ConditionCovered(num, c, updated);
      var w := UncoveredSilent(num, c, updated);
      assert SetFires(num, original, w);
    }
  }

  lemma KeptIsCovered(num: Numerals, c: Condition, d: Condition, cs: seq<Condition>)
    requires d in cs && c.Quantitative? == d.Quantitative?
    requires if c.Quantitative? then KeepsText(num, d.text, c.text) else c.text == d.text
    ensures ConditionCovered(num, c, cs)
  {
    hide Parse, Thresholds, CoversOnPoints, Trips;
    if Expression(num, c).Some? {
      var old_, new_ := Expression(num, c).value, Expression(num, d).value;
      var es := Thresholds(num, cs, old_.field);
      assert new_ in es;
      CoversIff(new_.op, new_.number, old_.op, old_.number);
      assert forall x: real :: GuardTrips(Some(old_), x) ==> Trips(new_.op, x, new_.number);
      PointsDecide(es, Some(old_));
    }
  }

  /** For a clean report on distinctly named conditions only those that slipped through need looking at. */
  lemma CleanSetKeepsIff(num: Numerals, original: seq<Condition>, updated: seq<Condition>, r: Report)
    requires IsReport(num, original, updated, r) && Clean(r) && DistinctlyNamed(original)
    ensures SetKeeps(num, original, updated)
       <==> Exhaustive(num, updated)
            || forall c <- original | Slipped(num, c, updated) :: ConditionCovered(num, c, updated)
  {
    hide IsReport, Parse, KeepsText, ConditionCovered, SetKeeps, Exhaustive;
    SetKeepsIff(num, original, updated);
    forall c | c in original && !Slipped(num, c, updated)
      ensures ConditionCovered(num, c, updated)
    {
      CleanMeans(num, original, updated, r, c);
      KeptIsCovered(num, c, ByName(updated)[c.name], updated);
    }
  }

  // ---------- the unflagged boundary, from the texts ----------

  lemma BoundaryTexts(num: Numerals)
    requires num("45") == Some(45.0)
    ensures Parse(num, "x <= 45") == Some(Expr("x", LE, 45.0)) && Parse(num, "x < 45") == Some(Expr("x", LT, 45.0))
  {
    hide Parse;
    var p := Spacing("", " ", " ", "");
    PrintThenParse(num, "x", LE, "45", p);
    PrintThenParse(num, "x", LT, "45", p);
    assert Print("x", LE, "45", p) == "x <= 45";
    assert Print("x", LT, "45", p) == "x < 45";
  }

  lemma SomeName(names: seq<string>)
    ensures names == [] || exists n :: n in names
  {
    if names != [] {
      assert names[0] in names;
    }
  }

  /** Changing "x <= 45" to "x < 45" gives a clean report, and the updated set no longer fires at 45. */
  lemma BoundaryExample(num: Numerals, r: Report)
    requires num("45") == Some(45.0)
    requires IsReport(num, [Quantitative("stop", "x <= 45")], [Quantitative("stop", "x < 45")], r)
    ensures Clean(r)
    ensures !SetKeeps(num, [Quantitative("stop", "x <= 45")], [Quantitative("stop", "x < 45")])
  {
    hide Parse;
    BoundaryTexts(num);
    var old_, new_ := Quantitative("stop", "x <= 45"), Quantitative("stop", "x < 45");
    assert ByName([old_]) == map["stop" := old_] by { assert [old_][..0] == []; }
    assert ByName([new_]) == map["stop" := new_] by { assert [new_][..0] == []; }
    SomeName(r.dropped);
    SomeName(r.added);
    SomeName(r.loosened);
    var w := WorldWith("x", 45.0, 45.0, "");
    assert CondFires(num, old_, w) && !CondFires(num, new_, w);
    assert old_ in [old_];
    assert SetFires(num, [old_], w) && !SetFires(num, [new_], w);
  }
}
