/** The goalpost guard: a small expression parser, a syntactic test for loosened thresholds, and the
    comparison of two versions of a thesis's invalidation conditions. */
module Goalpost {
  import opened Wrappers
  import opened Text

  datatype Op = LE | GE | EQ | NE | LT | GT

  /** Longest operators first, as they are tried. */
  const CANDIDATES: seq<Op> := [LE, GE, EQ, NE, LT, GT]

  function OpText(op: Op): (t: string)
    ensures t != ""
  {
    match op
    case LE => "<="
    case GE => ">="
    case EQ => "=="
    case NE => "!="
    case LT => "<"
    case GT => ">"
  }

  /** What a numeral denotes, if it is one; the reading of numerals is a parameter throughout. */
  type Numerals = string -> Option<real>

  datatype Expr = Expr(field: string, op: Op, number: real)

  predicate MatchesAt(s: string, p: string, i: int) {
    0 <= i <= |s| - |p| && s[i..i + |p|] == p
  }

  function FindFrom(s: string, p: string, from: nat): (r: Option<nat>)
    ensures r.Some? ==> MatchesAt(s, p, r.value) && from <= r.value
                        && forall k | from <= k < r.value :: !MatchesAt(s, p, k)
    ensures r.None? ==> forall k | from <= k :: !MatchesAt(s, p, k)
    decreases |s| + 1 - from
  {
    if from + |p| > |s| then None
    else if MatchesAt(s, p, from) then Some(from)
    else FindFrom(s, p, from + 1)
  }

  /** The first occurrence of a substring. */
  function Find(s: string, p: string): Option<nat> {
    FindFrom(s, p, 0)
  }

  datatype Attempt = Skipped | Settled(result: Option<Expr>)

  /** Splitting at one operator: skipped when a side is missing or the left side is not one word; settled,
      for better or worse, once the right side is read as a numeral. */
  function TryOp(num: Numerals, s: string, op: Op): Attempt {
    match Find(s, OpText(op))
    case None => Skipped
    case Some(idx) =>
      if idx == 0 then Skipped
      else
        var lhs, rhs := Trim(s[..idx]), Trim(s[idx + |OpText(op)|..]);
        if lhs == "" || rhs == "" || !NoSpace(lhs) then Skipped
        else match num(rhs)
          case None => Settled(None)
          case Some(n) => Settled(Some(Expr(lhs, op, n)))
  }

  function ParseWith(num: Numerals, s: string, ops: seq<Op>): Option<Expr> {
    if ops == [] then None
    else match TryOp(num, s, ops[0])
      case Settled(result) => result
      case Skipped => ParseWith(num, s, ops[1..])
  }

  function Parse(num: Numerals, s: string): Option<Expr> {
    ParseWith(num, Trim(s), CANDIDATES)
  }

  method ParseSimpleExpr(num: Numerals, s: string) returns (expr: Option<Expr>)
    ensures expr == Parse(num, s)
  {
    var trimmed := Trim(s);
    for k := 0 to |CANDIDATES|
      invariant Parse(num, s) == ParseWith(num, trimmed, CANDIDATES[k..])
    {
      var attempt := TryOp(num, trimmed, CANDIDATES[k]);
      if attempt.Settled? {
        return attempt.result;
      }
    }
    expr := None;
  }

  datatype Family = Below | Above | Exactly | Unequal

  function OpFamily(op: Op): Family {
    match op
    case LT => Below
    case LE => Below
    case GT => Above
    case GE => Above
    case EQ => Exactly
    case NE => Unequal
  }

  predicate LooserExpr(new_: Expr, old_: Expr) {
    && new_.field == old_.field && OpFamily(new_.op) == OpFamily(old_.op)
    && match OpFamily(new_.op)
       case Below => new_.number < old_.number
       case Above => new_.number > old_.number
       case _ => false
  }

  predicate Looser(num: Numerals, newText: string, oldText: string) {
    var new_, old_ := Parse(num, newText), Parse(num, oldText);
    new_.Some? && old_.Some? && LooserExpr(new_.value, old_.value)
  }

  // ---------- comparing two sets of conditions ----------

  datatype Condition = Quantitative(name: string, text: string) | Narrative(name: string, text: string)

  datatype Report = Report(
    weakened: bool, needsReview: bool, dropped: seq<string>, loosened: seq<string>, added: seq<string>)

  /** Conditions by non-empty name; a later one replaces an earlier one of the same name. */
  function ByName(cs: seq<Condition>): (m: map<string, Condition>)
    ensures forall n <- m :: m[n] in cs && m[n].name == n && n != ""
    ensures forall c <- cs :: c.name != "" ==> c.name in m
  {
    if cs == [] then map[]
    else
      var last := cs[|cs| - 1];
      var earlier := ByName(cs[..|cs| - 1]);
      if last.name == "" then earlier else earlier[last.name := last]
  }

  predicate IsLoosened(num: Numerals, old_: Condition, new_: Condition) {
    old_.Quantitative? && new_.Quantitative? && Looser(num, new_.text, old_.text)
  }

  lemma NameStep(cs: seq<Condition>, name: string)
    requires cs != [] && name != ""
    ensures var last, earlier := cs[|cs| - 1], ByName(cs[..|cs| - 1]);
            if last.name == name then name in ByName(cs) && ByName(cs)[name] == last
            else (name in ByName(cs) <==> name in earlier) && (name in earlier ==> ByName(cs)[name] == earlier[name])
  {
  }

  /** Of several conditions of one name, the last is the one looked up. */
  lemma {:induction false} LaterReplaces(before: seq<Condition>, c: Condition, after: seq<Condition>)
    requires c.name != "" && forall d <- after :: d.name != c.name
    ensures c.name in ByName(before + [c] + after) && ByName(before + [c] + after)[c.name] == c
    decreases |after|
  {
    hide ByName;
    var cs := before + [c] + after;
    NameStep(cs, c.name);
    if after == [] {
      assert cs[|cs| - 1] == c;
    } else {
      var rest, d := after[..|after| - 1], after[|after| - 1];
      assert cs[..|cs| - 1] == before + [c] + rest && cs[|cs| - 1] == d && d in after;
      LaterReplaces(before, c, rest);
    }
  }

  /** A changed narrative, or a condition that changed type. */
  predicate ForReview(old_: Condition, new_: Condition) {
    old_.Quantitative? != new_.Quantitative? || (old_.Narrative? && old_.text != new_.text)
  }

  ghost predicate Lists(names: seq<string>, wanted: set<string>) {
    StrictlySorted(names) && forall n :: n in names <==> n in wanted
  }

  function Shared(o: map<string, Condition>, u: map<string, Condition>): set<string> {
    set n | n in o && n in u
  }

  function LoosenedNames(num: Numerals, o: map<string, Condition>, u: map<string, Condition>): set<string> {
    set n | n in Shared(o, u) && IsLoosened(num, o[n], u[n])
  }

  /** What a report says, independently of how it is computed. */
  ghost predicate IsReport(num: Numerals, original: seq<Condition>, updated: seq<Condition>, r: Report) {
    var o, u := ByName(original), ByName(updated);
    && Lists(r.dropped, o.Keys - u.Keys) && Lists(r.added, u.Keys - o.Keys)
    && Lists(r.loosened, LoosenedNames(num, o, u))
    && (r.weakened <==> r.dropped != [] || r.loosened != [])
    && (r.needsReview <==>
          || (exists n | n in Shared(o, u) :: ForReview(o[n], u[n]))
          || (original != [] && |r.dropped| == |original| && r.added != []))
  }

  /** The names of one map that another lacks, sorted; maps are walked in any order. */
  method MissingFrom(o: map<string, Condition>, u: map<string, Condition>) returns (names: seq<string>)
    ensures Lists(names, o.Keys - u.Keys)
  {
    var left := o.Keys;
    names := [];
    while left != {}
      invariant left <= o.Keys
      invariant forall n :: n in names <==> n in o.Keys - left && n !in u
      decreases left
    {
      var name :| name in left;
      left := left - {name};
      if name !in u {
        names := names + [name];
      }
    }
    names := SortDedup(names);
  }

  method CompareShared(num: Numerals, o: map<string, Condition>, u: map<string, Condition>)
    returns (loosened: seq<string>, review: bool)
    ensures Lists(loosened, LoosenedNames(num, o, u))
    ensures review <==> exists n | n in Shared(o, u) :: ForReview(o[n], u[n])
  {
    var left := o.Keys;
    loosened, review := [], false;
    while left != {}
      invariant left <= o.Keys
      invariant forall n :: n in loosened <==> n in LoosenedNames(num, o, u) && n !in left
      invariant review <==> exists n | n in Shared(o, u) && n !in left :: ForReview(o[n], u[n])
      decreases left
    {
      var name :| name in left;
      left := left - {name};
      if name in u {
        match (o[name], u[name]) {
          case (Quantitative(_, oldText), Quantitative(_, newText)) =>
            if Looser(num, newText, oldText) {
              loosened := loosened + [name];
            }
          case (Narrative(_, oldText), Narrative(_, newText)) =>
            if oldText != newText {
              review := true;
            }
          case _ =>
            review := true;
        }
      }
    }
    loosened := SortDedup(loosened);
  }

  method Analyze(num: Numerals, original: seq<Condition>, updated: seq<Condition>) returns (r: Report)
    ensures IsReport(num, original, updated, r)
  {
    var o, u := ByName(original), ByName(updated);
    var dropped := MissingFrom(o, u);
    var added := MissingFrom(u, o);
    var loosened, review := CompareShared(num, o, u);
    if original != [] && |dropped| == |original| && added != [] {
      review := true;
    }
    r := Report(dropped != [] || loosened != [], review, dropped, loosened, added);
  }
}
