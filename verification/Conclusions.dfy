/** What an assessment made from a response says: which rules a response satisfies, and what follows from
    them, told by the places of the response body the rules name. */
module Conclusions {
  import opened Basics
  import opened Json
  import opened Pointer
  import opened Model
  import opened Validation
  import opened Judgement

  /** Some node of the document is the wanted value, and the rule names its place. */
  ghost predicate NamesNode(document: Value, pointer: string, want: Value) {
    exists path :: NodeAt(document, path) == Some(want) && pointer == Render(PathTokens(path))
  }

  /** The status is listed, if any is, and the value stands where the rule names it, if it names one. */
  ghost predicate Satisfies(ex: Execution, rule: ResponseAssertion) {
    && (rule.statusCodes == [] || exists i :: 0 <= i < |rule.statusCodes| && rule.statusCodes[i] == ex.status)
    && (rule.equals.Absent?
        || exists document, want ::
             && Decode(ex.body) == Some(document) && Decode(rule.equals) == Some(want)
             && NamesNode(document, rule.pointer, want))
  }

  /** A valid rule matches a response exactly when the response satisfies it. */
  lemma MatchesExact(ex: Execution, rule: ResponseAssertion)
    requires ValidAssertion(rule)
    ensures RuleMatches(ex, rule) <==> Satisfies(ex, rule)
  {
    hide Decode, NodeAt, PathTokens, Render, Tokens, PointerValueOf;
    if rule.equals.Raw? && Decode(ex.body).Some? {
      var document, want := Decode(ex.body).value, Decode(rule.equals).value;
      EvaluateExact(document, rule.pointer, want);
      EvaluateUnfolds(document, rule.pointer);
    }
  }

  lemma EvaluateUnfolds(document: Value, pointer: string)
    requires Tokens(pointer).Some?
    ensures Pointer.Evaluate(document, pointer) == PointerValueOf(document, Verify.TokensOrNone(pointer))
  {
    hide Tokens, PointerValueOf;
  }

  ghost predicate SomeSatisfied(ex: Execution, rules: seq<ResponseAssertion>, decision: AccessDecision) {
    exists i :: 0 <= i < |rules| && Satisfies(ex, rules[i]) && rules[i].decision == decision
  }

  /** Each satisfied rule once, in declared order. */
  ghost predicate ListsSatisfied(ex: Execution, rules: seq<ResponseAssertion>, n: nat, matched: seq<nat>)
    requires n <= |rules|
  {
    && (forall i: nat :: i in matched <==> i < n && Satisfies(ex, rules[i]))
    && forall k, l :: 0 <= k < l < |matched| ==> matched[k] < matched[l]
  }

  lemma {:induction false} MatchedExact(ex: Execution, rules: seq<ResponseAssertion>, n: nat)
    requires n <= |rules| && forall i :: 0 <= i < |rules| ==> ValidAssertion(rules[i])
    ensures ListsSatisfied(ex, rules, n, MatchedRules(ex, rules, n))
  {
    hide RuleMatches, Satisfies, ValidAssertion;
    if n > 0 {
      MatchedExact(ex, rules, n - 1);
      MatchesExact(ex, rules[n - 1]);
      OneMore(ex, rules, n, MatchedRules(ex, rules, n - 1));
    }
  }

  lemma OneMore(ex: Execution, rules: seq<ResponseAssertion>, n: nat, before: seq<nat>)
    requires 0 < n <= |rules| && ListsSatisfied(ex, rules, n - 1, before)
    ensures ListsSatisfied(ex, rules, n, before + if Satisfies(ex, rules[n - 1]) then [n - 1] else [])
  {
    hide Satisfies;
    forall k | 0 <= k < |before|
      ensures before[k] < n - 1
    {
      assert before[k] in before;
    }
  }

  lemma ClaimsExact(ex: Execution, rules: seq<ResponseAssertion>, decision: AccessDecision)
    requires forall i :: 0 <= i < |rules| ==> ValidAssertion(rules[i])
    ensures Claims(ex, rules, decision) <==> SomeSatisfied(ex, rules, decision)
  {
    hide RuleMatches, Satisfies, ValidAssertion;
    forall i | 0 <= i < |rules|
      ensures RuleMatches(ex, rules[i]) <==> Satisfies(ex, rules[i])
    {
      MatchesExact(ex, rules[i]);
    }
  }

  /** Main result: from a response, access is concluded allowed or denied exactly when some rule for it and none
      against it is satisfied, or without rules when the response is classified so; the satisfied rules are
      listed in order; and every other case is undecided or skipped for the reason that holds. */
  lemma ConclusionMeans(id: string, ex: Execution, ea: Option<ExpectedAccess>)
    requires ea.Some? ==> forall i :: 0 <= i < |ea.value.assertions| ==> ValidAssertion(ea.value.assertions[i])
    ensures var a := Conclusion(id, ex, ea);
      var rules := if ea.Some? then ea.value.assertions else [];
      var asked := ea.Some? && !ea.value.decision.Skip?;
      var answered := asked && !ex.error && !ex.errorKind;
      var allow, deny := SomeSatisfied(ex, rules, Allow), SomeSatisfied(ex, rules, Deny);
      var outcome := if ex.outcome.Some? then ex.outcome.value else ClassifyOutcomeWith(ex.status, false, []);
      && a.identityId == id && a.evidence.None?
      && a.expected == (if ea.Some? then Some(ea.value.decision) else None)
      && (a.decision.Skipped? <==> !asked)
      && (a.decision.Allowed? <==> answered && if rules == [] then outcome.OutcomeAllow? else allow && !deny)
      && (a.decision.Denied? <==> answered && if rules == [] then outcome.OutcomeDeny? else deny && !allow)
      && (if answered && rules != [] then ListsSatisfied(ex, rules, |rules|, a.matched) else a.matched == [])
      && a.source == (if !answered then NoSource else if rules == [] then HttpStatus else ByAssertion)
      && a.reason == (
        if ea.None? then NoExpectation
        else if !asked then ExplicitSkip
        else if !answered then ExecutionError
        else if rules == [] then if outcome.OutcomeAllow? || outcome.OutcomeDeny? then StatusOnly else AmbiguousOutcome
        else if allow && deny then ConflictingAssertions
        else if allow || deny then AssertionMatched
        else if Decode(ex.body).Some? then NoAssertionMatched
        else UnsupportedJson)
  {
    hide Satisfies, RuleMatches, ValidAssertion, Claims, SomeSatisfied, ClassifyOutcomeWith, Decode;
    if ea.Some? {
      var rules := ea.value.assertions;
      ClaimsExact(ex, rules, Allow);
      ClaimsExact(ex, rules, Deny);
      MatchedExact(ex, rules, |rules|);
    }
  }
}
