/**
 * Checklist completeness scoring of iaeval/ro_eval_completeness.py.
 *
 * A minim model is a list of requirements, each at a level ("MUST",
 * "SHOULD", "MAY", or anything else) and optionally carrying a data rule
 * naming a resource the RO must aggregate. `Evaluate` checks each data
 * rule against the manifest (given here as the set of resources the RO
 * aggregates), collects the unsatisfied requirements per level, and knocks
 * out satisfaction levels in cascade; `Format` renders the result as
 * report lines.
 */
module RoEvalCompleteness {
  import opened Wrappers
  import opened Sequences

  /** A minim requirement: its level and, when it has one, the resource its data rule requires aggregated. */
  datatype Requirement = Requirement(level: string, datarule: Option<string>)

  /** minim:minimallySatisfies, minim:nominallySatisfies, minim:fullySatisfies. */
  datatype Satisfaction = MinimallySatisfies | NominallySatisfies | FullySatisfies

  /** One `(r, satisfied)` pair of the first loop. */
  datatype Evaluation = Evaluation(req: Requirement, satisfied: bool)

  /**
   * The result dictionary. The summary is a set: the source builds it as a
   * list from a dictionary whose iteration order is not fixed.
   */
  datatype EvalResult = EvalResult(
    summary: set<Satisfaction>,
    missingMust: seq<Requirement>,
    missingShould: seq<Requirement>,
    missingMay: seq<Requirement>,
    rodir: string,
    rouri: string,
    minimuri: string,
    target: string,
    purpose: string,
    constrainturi: string,
    modeluri: string)

  /** The two assertions of lines 67 and 69. */
  datatype EvalError = MissingConstraint | MissingModel

  // ---------------------------------------------------------------------
  // Specification functions

  /** The evaluations of the requirements that carry a data rule, in order. */
  function Evaluations(reqs: seq<Requirement>, aggregates: set<string>): (e: seq<Evaluation>)
    ensures |e| <= |reqs|
  {
    if reqs == [] then []
    else Evaluations(reqs[..|reqs| - 1], aggregates) + EvaluationOf(reqs[|reqs| - 1], aggregates)
  }

  /** The entry one requirement contributes: none without a data rule. */
  function EvaluationOf(r: Requirement, aggregates: set<string>): seq<Evaluation>
  {
    if r.datarule.Some? then [Evaluation(r, r.datarule.value in aggregates)] else []
  }

  /** The unsatisfied requirements at the given level, in order. */
  function Unsatisfied(e: seq<Evaluation>, level: string): seq<Requirement>
  {
    if e == [] then []
    else
      var x := e[|e| - 1];
      Unsatisfied(e[..|e| - 1], level) + (if !x.satisfied && x.req.level == level then [x.req] else [])
  }

  /** The levels that survive the knock-outs of lines 97-110. */
  function Summary(e: seq<Evaluation>): (s: set<Satisfaction>)
    ensures FullySatisfies in s ==> NominallySatisfies in s
    ensures NominallySatisfies in s ==> MinimallySatisfies in s
  {
    var must := Unsatisfied(e, "MUST") == [];
    var should := must && Unsatisfied(e, "SHOULD") == [];
    var may := should && Unsatisfied(e, "MAY") == [];
    (if must then {MinimallySatisfies} else {})
      + (if should then {NominallySatisfies} else {})
      + (if may then {FullySatisfies} else {})
  }

  /** Every missing requirement names the resource its data rule requires. */
  predicate HasDatarules(res: EvalResult)
  {
    && (forall m :: m in res.missingMust ==> m.datarule.Some?)
    && (forall m :: m in res.missingShould ==> m.datarule.Some?)
    && (forall m :: m in res.missingMay ==> m.datarule.Some?)
  }

  // ---------------------------------------------------------------------
  // evaluate

  /**
   * `evaluate` (lines 26-112). The constraint and model URIs are what the
   * minim graph lookups answer, None when the lookup finds nothing.
   */
  method Evaluate(rodir: string, rouri: string, minimuri: string, target: string, purpose: string,
                  constraint: Option<string>, model: Option<string>,
                  requirements: seq<Requirement>, aggregates: set<string>)
    returns (res: Result<EvalResult, EvalError>)
    ensures constraint.None? ==> res == Failure(MissingConstraint)
    ensures constraint.Some? && model.None? ==> res == Failure(MissingModel)
    ensures constraint.Some? && model.Some? ==> res.Success?
    ensures res.Success? ==>
      var e := Evaluations(requirements, aggregates);
      var v := res.value;
      && v.missingMust == Unsatisfied(e, "MUST")
      && v.missingShould == Unsatisfied(e, "SHOULD")
      && v.missingMay == Unsatisfied(e, "MAY")
      && v.summary == Summary(e)
      && (MinimallySatisfies in v.summary <==> v.missingMust == [])
      && (NominallySatisfies in v.summary <==> v.missingMust == [] && v.missingShould == [])
      && (FullySatisfies in v.summary <==> v.missingMust == [] && v.missingShould == [] && v.missingMay == [])
      && HasDatarules(v)
      && v.rodir == rodir && v.rouri == rouri && v.minimuri == minimuri
      && v.target == target && v.purpose == purpose
      && v.constrainturi == constraint.value && v.modeluri == model.value
  {
    if constraint.None? {
      return Failure(MissingConstraint);
    }
    if model.None? {
      return Failure(MissingModel);
    }
    var reqeval := EvaluateRequirements(requirements, aggregates);
    EvaluationsHaveDatarules(requirements, aggregates);
    var satLevels, missingMust, missingShould, missingMay := KnockOut(reqeval);
    var summary := SatisfiedLevels(satLevels);
    assert summary == Summary(reqeval) by {
      forall x: Satisfaction
        ensures x in summary <==> x in Summary(reqeval)
      {
        match x
        case MinimallySatisfies =>
        case NominallySatisfies =>
        case FullySatisfies =>
      }
    }
    res := Success(EvalResult(summary, missingMust, missingShould, missingMay,
                              rodir, rouri, minimuri, target, purpose, constraint.value, model.value));
  }

  /** Line 111: the satisfaction levels not knocked out. */
  method SatisfiedLevels(satLevels: map<string, Option<Satisfaction>>) returns (summary: set<Satisfaction>)
    requires satLevels.Keys == {"MUST", "SHOULD", "MAY"}
    requires satLevels["MUST"] in {None, Some(MinimallySatisfies)}
    requires satLevels["SHOULD"] in {None, Some(NominallySatisfies)}
    requires satLevels["MAY"] in {None, Some(FullySatisfies)}
    ensures MinimallySatisfies in summary <==> satLevels["MUST"].Some?
    ensures NominallySatisfies in summary <==> satLevels["SHOULD"].Some?
    ensures FullySatisfies in summary <==> satLevels["MAY"].Some?
  {
    summary := set k | k in satLevels && satLevels[k].Some? :: satLevels[k].value;
  }

  /** The loop at lines 72-76: one evaluation per requirement that carries a data rule. */
  method EvaluateRequirements(requirements: seq<Requirement>, aggregates: set<string>) returns (reqeval: seq<Evaluation>)
    ensures reqeval == Evaluations(requirements, aggregates)
  {
    reqeval := [];
    for i := 0 to |requirements|
      invariant reqeval == Evaluations(requirements[..i], aggregates)
    {
      var r := requirements[i];
      assert requirements[..i + 1][..i] == requirements[..i];
      if r.datarule.Some? {
        var satisfied := r.datarule.value in aggregates;
        reqeval := reqeval + [Evaluation(r, satisfied)];
      }
    }
    assert requirements[..|requirements|] == requirements;
  }

  /**
   * The loop at lines 97-110: the missing lists per level, and the
   * satisfaction levels with False (here None) for each knocked-out one.
   */
  method KnockOut(reqeval: seq<Evaluation>)
    returns (satLevels: map<string, Option<Satisfaction>>,
             missingMust: seq<Requirement>, missingShould: seq<Requirement>, missingMay: seq<Requirement>)
    ensures missingMust == Unsatisfied(reqeval, "MUST")
    ensures missingShould == Unsatisfied(reqeval, "SHOULD")
    ensures missingMay == Unsatisfied(reqeval, "MAY")
    ensures satLevels.Keys == {"MUST", "SHOULD", "MAY"}
    ensures satLevels["MUST"] == if missingMust == [] then Some(MinimallySatisfies) else None
    ensures satLevels["SHOULD"] ==
      if missingMust == [] && missingShould == [] then Some(NominallySatisfies) else None
    ensures satLevels["MAY"] ==
      if missingMust == [] && missingShould == [] && missingMay == [] then Some(FullySatisfies) else None
  {
    satLevels := map["MUST" := Some(MinimallySatisfies), "SHOULD" := Some(NominallySatisfies), "MAY" := Some(FullySatisfies)];
    missingMust, missingShould, missingMay := [], [], [];
    for i := 0 to |reqeval|
      invariant missingMust == Unsatisfied(reqeval[..i], "MUST")
      invariant missingShould == Unsatisfied(reqeval[..i], "SHOULD")
      invariant missingMay == Unsatisfied(reqeval[..i], "MAY")
      invariant satLevels.Keys == {"MUST", "SHOULD", "MAY"}
      invariant satLevels["MUST"] == if missingMust == [] then Some(MinimallySatisfies) else None
      invariant satLevels["SHOULD"] ==
        if missingMust == [] && missingShould == [] then Some(NominallySatisfies) else None
      invariant satLevels["MAY"] ==
        if missingMust == [] && missingShould == [] && missingMay == [] then Some(FullySatisfies) else None
    {
      var x := reqeval[i];
      assert reqeval[..i + 1][..i] == reqeval[..i];
      if !x.satisfied {
        if x.req.level == "MUST" {
          missingMust := missingMust + [x.req];
          satLevels := satLevels["MUST" := None]["SHOULD" := None]["MAY" := None];
        } else if x.req.level == "SHOULD" {
          missingShould := missingShould + [x.req];
          satLevels := satLevels["SHOULD" := None]["MAY" := None];
        } else if x.req.level == "MAY" {
          missingMay := missingMay + [x.req];
          satLevels := satLevels["MAY" := None];
        }
      }
    }
    assert reqeval[..|reqeval|] == reqeval;
  }

  lemma {:induction false} EvaluationsHaveDatarules(reqs: seq<Requirement>, aggregates: set<string>)
    ensures forall x :: x in Evaluations(reqs, aggregates) ==> x.req.datarule.Some?
    ensures forall lv, r :: r in Unsatisfied(Evaluations(reqs, aggregates), lv) ==> r.datarule.Some?
  {
    forall lv, r | r in Unsatisfied(Evaluations(reqs, aggregates), lv)
      ensures r.datarule.Some?
    {
      UnsatisfiedMember(reqs, aggregates, lv, r);
    }
    forall x | x in Evaluations(reqs, aggregates)
      ensures x.req.datarule.Some?
    {
      EvaluationsMember(reqs, aggregates, x);
    }
  }

  // ---------------------------------------------------------------------
  // Properties of the evaluation

  /** Only requirements with a data rule are evaluated, each satisfied iff the RO aggregates its resource. */
  lemma {:induction false} EvaluationsMember(reqs: seq<Requirement>, aggregates: set<string>, x: Evaluation)
    ensures x in Evaluations(reqs, aggregates)
        <==> x.req in reqs && x.req.datarule.Some? && x.satisfied == (x.req.datarule.value in aggregates)
  {
    if reqs != [] {
      var init := reqs[..|reqs| - 1];
      EvaluationsMember(init, aggregates, x);
      assert reqs == init + [reqs[|reqs| - 1]];
    }
  }

  lemma {:induction false} UnsatisfiedOfMember(e: seq<Evaluation>, level: string, r: Requirement)
    ensures r in Unsatisfied(e, level) <==> Evaluation(r, false) in e && r.level == level
  {
    if e != [] {
      var init := e[..|e| - 1];
      UnsatisfiedOfMember(init, level, r);
      assert e == init + [e[|e| - 1]];
    }
  }

  /**
   * A requirement is in the missing list of a level iff it is one of the
   * requirements at that level whose data rule's resource is not aggregated.
   */
  lemma UnsatisfiedMember(reqs: seq<Requirement>, aggregates: set<string>, level: string, r: Requirement)
    ensures r in Unsatisfied(Evaluations(reqs, aggregates), level)
        <==> r in reqs && r.level == level && r.datarule.Some? && r.datarule.value !in aggregates
  {
    UnsatisfiedOfMember(Evaluations(reqs, aggregates), level, r);
    EvaluationsMember(reqs, aggregates, Evaluation(r, false));
  }

  /** Evaluating a longer model evaluates the two parts one after the other. */
  lemma {:induction false} EvaluationsAppend(a: seq<Requirement>, b: seq<Requirement>, aggregates: set<string>)
    ensures Evaluations(a + b, aggregates) == Evaluations(a, aggregates) + Evaluations(b, aggregates)
    decreases |b|
  {
    if b == [] {
      assert a + b == a;
    } else {
      var init := b[..|b| - 1];
      var x := EvaluationOf(b[|b| - 1], aggregates);
      EvaluationsAppend(a, init, aggregates);
      AppendInit(a, b);
      assert Evaluations(a + b, aggregates) == Evaluations(a + init, aggregates) + x;
      AppendAssoc(Evaluations(a, aggregates), Evaluations(init, aggregates), x);
    }
  }

  /** The missing lists keep requirement order: the missing list of a concatenation is the concatenation. */
  lemma {:induction false} UnsatisfiedAppend(e1: seq<Evaluation>, e2: seq<Evaluation>, level: string)
    ensures Unsatisfied(e1 + e2, level) == Unsatisfied(e1, level) + Unsatisfied(e2, level)
    decreases |e2|
  {
    if e2 == [] {
      assert e1 + e2 == e1;
    } else {
      var init := e2[..|e2| - 1];
      var x := e2[|e2| - 1];
      var here := if !x.satisfied && x.req.level == level then [x.req] else [];
      UnsatisfiedAppend(e1, init, level);
      AppendInit(e1, e2);
      assert Unsatisfied(e1 + e2, level) == Unsatisfied(e1 + init, level) + here;
      AppendAssoc(Unsatisfied(e1, level), Unsatisfied(init, level), here);
    }
  }

  /** The missing lists partition the unsatisfied MUST, SHOULD and MAY requirements by level. */
  lemma MissingListsPartition(reqs: seq<Requirement>, aggregates: set<string>, r: Requirement)
    requires r in reqs && r.datarule.Some? && r.datarule.value !in aggregates
    ensures var e := Evaluations(reqs, aggregates);
      && (r in Unsatisfied(e, "MUST") <==> r.level == "MUST")
      && (r in Unsatisfied(e, "SHOULD") <==> r.level == "SHOULD")
      && (r in Unsatisfied(e, "MAY") <==> r.level == "MAY")
  {
    UnsatisfiedMember(reqs, aggregates, "MUST", r);
    UnsatisfiedMember(reqs, aggregates, "SHOULD", r);
    UnsatisfiedMember(reqs, aggregates, "MAY", r);
  }

  /** A model all of whose data rules are met is fully satisfied. */
  lemma AllRulesMetFullySatisfies(reqs: seq<Requirement>, aggregates: set<string>)
    requires forall r :: r in reqs && r.datarule.Some? ==> r.datarule.value in aggregates
    ensures Summary(Evaluations(reqs, aggregates)) == {MinimallySatisfies, NominallySatisfies, FullySatisfies}
  {
    var e := Evaluations(reqs, aggregates);
    NoneMissingWhenAllMet(reqs, aggregates, "MUST");
    NoneMissingWhenAllMet(reqs, aggregates, "SHOULD");
    NoneMissingWhenAllMet(reqs, aggregates, "MAY");
    SummaryMembers(e);
    assert MinimallySatisfies in Summary(e) && NominallySatisfies in Summary(e) && FullySatisfies in Summary(e);
  }

  lemma NoneMissingWhenAllMet(reqs: seq<Requirement>, aggregates: set<string>, level: string)
    requires forall r :: r in reqs && r.datarule.Some? ==> r.datarule.value in aggregates
    ensures Unsatisfied(Evaluations(reqs, aggregates), level) == []
  {
    var u := Unsatisfied(Evaluations(reqs, aggregates), level);
    if u != [] {
      UnsatisfiedMember(reqs, aggregates, level, u[0]);
    }
  }

  /** The levels in a summary, one by one. */
  lemma SummaryMembers(e: seq<Evaluation>)
    ensures MinimallySatisfies in Summary(e) <==> Unsatisfied(e, "MUST") == []
    ensures NominallySatisfies in Summary(e) <==> Unsatisfied(e, "MUST") == [] && Unsatisfied(e, "SHOULD") == []
    ensures FullySatisfies in Summary(e)
        <==> Unsatisfied(e, "MUST") == [] && Unsatisfied(e, "SHOULD") == [] && Unsatisfied(e, "MAY") == []
  {
  }

  lemma NoneMissingWhenMoreAggregated(reqs: seq<Requirement>, a1: set<string>, a2: set<string>, level: string)
    requires a1 <= a2
    requires Unsatisfied(Evaluations(reqs, a1), level) == []
    ensures Unsatisfied(Evaluations(reqs, a2), level) == []
  {
    var u2 := Unsatisfied(Evaluations(reqs, a2), level);
    if u2 != [] {
      UnsatisfiedMember(reqs, a2, level, u2[0]);
      UnsatisfiedMember(reqs, a1, level, u2[0]);
    }
  }

  /** Aggregating more resources can only raise the satisfaction reached. */
  lemma SummaryMonotoneInAggregates(reqs: seq<Requirement>, a1: set<string>, a2: set<string>)
    requires a1 <= a2
    ensures Summary(Evaluations(reqs, a1)) <= Summary(Evaluations(reqs, a2))
  {
    var e1 := Evaluations(reqs, a1);
    var e2 := Evaluations(reqs, a2);
    if Unsatisfied(e1, "MUST") == [] {
      NoneMissingWhenMoreAggregated(reqs, a1, a2, "MUST");
    }
    if Unsatisfied(e1, "SHOULD") == [] {
      NoneMissingWhenMoreAggregated(reqs, a1, a2, "SHOULD");
    }
    if Unsatisfied(e1, "MAY") == [] {
      NoneMissingWhenMoreAggregated(reqs, a1, a2, "MAY");
    }
    SummaryMembers(e1);
    SummaryMembers(e2);
  }

  /** Adding requirements to a model can only lower the satisfaction reached. */
  lemma SummaryAntitoneInRequirements(reqs: seq<Requirement>, more: seq<Requirement>, aggregates: set<string>)
    ensures Summary(Evaluations(reqs + more, aggregates)) <= Summary(Evaluations(reqs, aggregates))
  {
    EvaluationsAppend(reqs, more, aggregates);
    var e1 := Evaluations(reqs, aggregates);
    var e2 := Evaluations(more, aggregates);
    UnsatisfiedAppend(e1, e2, "MUST");
    UnsatisfiedAppend(e1, e2, "SHOULD");
    UnsatisfiedAppend(e1, e2, "MAY");
  }

  // ---------------------------------------------------------------------
  // format

  /** The summary text of lines 135-138: the highest level present. */
  function SummaryText(summary: set<Satisfaction>): (t: string)
    ensures t == "Fully complete" <==> FullySatisfies in summary
    ensures t == "Nominally complete" <==> FullySatisfies !in summary && NominallySatisfies in summary
    ensures t == "Minimally complete"
        <==> FullySatisfies !in summary && NominallySatisfies !in summary && MinimallySatisfies in summary
    ensures t == "Incomplete"
        <==> FullySatisfies !in summary && NominallySatisfies !in summary && MinimallySatisfies !in summary
  {
    // the four texts differ in their first letter
    assert "Fully complete"[0] == 'F' && "Nominally complete"[0] == 'N';
    assert "Minimally complete"[0] == 'M' && "Incomplete"[0] == 'I';
    if FullySatisfies in summary then "Fully complete"
    else if NominallySatisfies in summary then "Nominally complete"
    else if MinimallySatisfies in summary then "Minimally complete"
    else "Incomplete"
  }

  /** What the report says of an evaluation, in terms of which levels have missing requirements. */
  lemma SummaryTextOfEvaluation(e: seq<Evaluation>)
    ensures var t := SummaryText(Summary(e));
      var must := Unsatisfied(e, "MUST") == [];
      var should := Unsatisfied(e, "SHOULD") == [];
      var may := Unsatisfied(e, "MAY") == [];
      && (t == "Fully complete" <==> must && should && may)
      && (t == "Nominally complete" <==> must && should && !may)
      && (t == "Minimally complete" <==> must && !should)
      && (t == "Incomplete" <==> !must)
  {
  }

  const MustPrefix := "Missing MUST resource:   "
  const ShouldPrefix := "Missing SHOULD resource: "
  const MayPrefix := "Missing MAY resource:    "

  function HeaderLine(res: EvalResult): string
  {
    "Research Object " + res.rodir + ":"
  }

  function SummaryLine(res: EvalResult): string
  {
    SummaryText(res.summary) + " for " + res.purpose + " of resource " + res.target
  }

  /** One line per missing requirement, naming the resource its data rule requires, in order. */
  function MissingLines(prefix: string, ms: seq<Requirement>): (lines: seq<string>)
    requires forall m :: m in ms ==> m.datarule.Some?
    ensures |lines| == |ms|
    ensures forall i :: 0 <= i < |ms| ==> lines[i] == prefix + ms[i].datarule.value
  {
    if ms == [] then []
    else MissingLines(prefix, ms[..|ms| - 1]) + [prefix + ms[|ms| - 1].datarule.value]
  }

  /**
   * `format` (lines 114-148), the lines written to the stream. A line is
   * written only when the detail option is in the line's list: ["summary",
   * "full"] for the two header lines, ["full"] for the others. So any
   * other detail, such as "must", "should" or "may", writes nothing at all.
   */
  method Format(res: EvalResult, detail: string) returns (lines: seq<string>)
    requires HasDatarules(res)
    ensures detail == "summary" ==> lines == [HeaderLine(res), SummaryLine(res)]
    ensures detail == "full" ==>
      lines == [HeaderLine(res), SummaryLine(res)]
               + MissingLines(MustPrefix, res.missingMust)
               + MissingLines(ShouldPrefix, res.missingShould)
               + MissingLines(MayPrefix, res.missingMay)
               + ["Research object URI:     " + res.rouri]
               + ["Minimum information URI: " + res.minimuri]
    ensures detail != "summary" && detail != "full" ==> lines == []
  {
    var any := detail in ["summary", "full"];
    var full := detail in ["full"];
    assert "summary" != "full" by {
      assert |"summary"| != |"full"|;
    }
    lines := [];
    if any {
      lines := lines + [HeaderLine(res)];
    }
    if any {
      lines := lines + [SummaryLine(res)];
      assert lines == [HeaderLine(res), SummaryLine(res)];
    }
    lines := PutMissing(lines, full, MustPrefix, res.missingMust);
    lines := PutMissing(lines, full, ShouldPrefix, res.missingShould);
    lines := PutMissing(lines, full, MayPrefix, res.missingMay);
    if full {
      lines := lines + ["Research object URI:     " + res.rouri];
    }
    if full {
      lines := lines + ["Minimum information URI: " + res.minimuri];
    }
  }

  /** One of the loops at lines 140-145: a line per missing requirement, when the detail selects it. */
  method PutMissing(lines: seq<string>, selected: bool, prefix: string, ms: seq<Requirement>) returns (lines': seq<string>)
    requires forall m :: m in ms ==> m.datarule.Some?
    ensures lines' == lines + (if selected then MissingLines(prefix, ms) else [])
  {
    lines' := lines;
    for i := 0 to |ms|
      invariant lines' == lines + (if selected then MissingLines(prefix, ms[..i]) else [])
    {
      assert ms[..i + 1][..i] == ms[..i];
      if selected {
        lines' := lines' + [prefix + ms[i].datarule.value];
      }
    }
    assert ms[..|ms|] == ms;
  }
}
