/** What a report says of two sets of conditions, in terms of the conditions, their texts and when they fire. */
module GoalpostReport {
  import opened Text
  import opened Goalpost
  import opened GoalpostMeaning

  /** Two thresholds of one ordered family: both bound from above, or both from below. */
  predicate SameOrderedFamily(a: Op, b: Op) {
    (a in {LT, LE} && b in {LT, LE}) || (a in {GT, GE} && b in {GT, GE})
  }

  /** Two versions of a condition whose texts parse to one field and one ordered family. */
  predicate Comparable(num: Numerals, old_: Condition, new_: Condition) {
    && old_.Quantitative? && new_.Quantitative?
    && var a, b := Parse(num, new_.text), Parse(num, old_.text);
       a.Some? && b.Some? && a.value.field == b.value.field && SameOrderedFamily(a.value.op, b.value.op)
  }

  /** One condition fires in strictly fewer worlds than another. */
  ghost predicate FiresLess(num: Numerals, new_: Condition, old_: Condition) {
    && (forall w: World :: CondFires(num, new_, w) ==> CondFires(num, old_, w))
    && (exists w: World :: CondFires(num, old_, w) && !CondFires(num, new_, w))
  }

  lemma FiresLessIff(num: Numerals, old_: Condition, new_: Condition)
    requires Comparable(num, old_, new_) && old_.name == new_.name
    ensures FiresLess(num, new_, old_)
       <==> KeepsText(num, old_.text, new_.text) && !KeepsText(num, new_.text, old_.text)
  {
    hide CondFires, KeepsText, Parse;
    QuantitativeKeepsIff(num, old_.name, new_.text, old_.text);
    QuantitativeKeepsIff(num, old_.name, old_.text, new_.text);
  }

  /** For one field and one ordered family the flag says: strictly weaker, by another number. */
  lemma FlaggedIff(num: Numerals, old_: Condition, new_: Condition)
    requires Comparable(num, old_, new_)
    ensures Looser(num, new_.text, old_.text)
       <==> KeepsText(num, old_.text, new_.text) && !KeepsText(num, new_.text, old_.text)
            && Parse(num, old_.text).value.number != Parse(num, new_.text).value.number
  {
    hide Parse;
  }

  lemma IncomparableIsNotFlagged(num: Numerals, old_: Condition, new_: Condition)
    requires old_.Quantitative? && new_.Quantitative? && !Comparable(num, old_, new_)
    ensures !Looser(num, new_.text, old_.text)
  {
    hide Parse;
  }

  /** Exactly which names a report lists as loosened: those in both sets whose two texts parse to one field and one
      ordered family, whose new version fires in strictly fewer worlds, and whose numbers differ. */
  lemma LoosenedIff(num: Numerals, original: seq<Condition>, updated: seq<Condition>, r: Report, name: string)
    requires IsReport(num, original, updated, r)
    ensures var o, u := ByName(original), ByName(updated);
            name in r.loosened <==>
              && name in o && name in u && Comparable(num, o[name], u[name])
              && FiresLess(num, u[name], o[name])
              && Parse(num, o[name].text).value.number != Parse(num, u[name].text).value.number
  {
    hide Parse, CondFires, KeepsText, Looser, FiresLess;
    var o, u := ByName(original), ByName(updated);
    assert name in r.loosened <==> name in LoosenedNames(num, o, u);
    if name in o && name in u && o[name].Quantitative? && u[name].Quantitative? {
      if Comparable(num, o[name], u[name]) {
        FiresLessIff(num, o[name], u[name]);
        FlaggedIff(num, o[name], u[name]);
      } else {
        IncomparableIsNotFlagged(num, o[name], u[name]);
      }
    }
  }

  predicate Named(cs: seq<Condition>, name: string) {
    name != "" && exists c <- cs :: c.name == name
  }

  lemma {:induction false} ByNameIff(cs: seq<Condition>, name: string)
    ensures name in ByName(cs) <==> Named(cs, name)
  {
    if name in ByName(cs) {
      assert ByName(cs)[name] in cs;
    }
  }

  /** Exactly which names are dropped and added, and that a report weakens when something is dropped or loosened. */
  lemma DroppedAndAddedIff(num: Numerals, original: seq<Condition>, updated: seq<Condition>, r: Report, name: string)
    requires IsReport(num, original, updated, r)
    ensures name in r.dropped <==> Named(original, name) && !Named(updated, name)
    ensures name in r.added <==> Named(updated, name) && !Named(original, name)
    ensures r.weakened <==> r.dropped != [] || r.loosened != []
    ensures StrictlySorted(r.dropped) && StrictlySorted(r.added) && StrictlySorted(r.loosened)
  {
    hide LoosenedNames, ForReview;
    ByNameIff(original, name);
    ByNameIff(updated, name);
    assert name in r.dropped <==> name in ByName(original).Keys - ByName(updated).Keys;
    assert name in r.added <==> name in ByName(updated).Keys - ByName(original).Keys;
  }

  /** Exactly when a report asks for review: a condition in both sets changed its type, or its words; or everything was
      replaced. */
  lemma ReviewIff(num: Numerals, original: seq<Condition>, updated: seq<Condition>, r: Report)
    requires IsReport(num, original, updated, r)
    ensures var o, u := ByName(original), ByName(updated);
            r.needsReview <==>
              || (exists name | name in o && name in u ::
                    || (o[name].Quantitative? && u[name].Narrative?) || (o[name].Narrative? && u[name].Quantitative?)
                    || (o[name].Narrative? && u[name].Narrative? && o[name].text != u[name].text))
              || (original != [] && |r.dropped| == |original| && r.added != [])
  {
    hide LoosenedNames;
    var o, u := ByName(original), ByName(updated);
    assert forall n :: n in Shared(o, u) <==> n in o && n in u;
  }
}
