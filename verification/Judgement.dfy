/** From responses to conclusions: status classification, response assertions,
    credential demotion, the positive-control guard and access findings. */
module Judgement {
  import opened Basics
  import opened Json
  import Number
  import opened Model
  import opened Server
  import opened Verify
  import Dotted

  // ----- Status and assertion conclusions -----

  /** A declared body condition outranks the status line. */
  ghost function ClassifyIn(text: Dotted.Text, tc: TestCase, ex: Execution, order: Dotted.Order): Outcome {
    if ex.error then OutcomeError
    else if tc.denyWhen.Some? && Dotted.Matches(text, ex.body, tc.denyWhen.value, order) then OutcomeDeny
    else ClassifyOutcomeWith(ex.status, false, tc.denyStatuses)
  }

  ghost function Classify(lib: Library, tc: TestCase, ex: Execution, occasion: Occasion): Outcome {
    ClassifyIn(lib.text, tc, ex, lib.order(occasion))
  }

  method ClassifyResponse(lib: Library, tc: TestCase, ex: Execution, occasion: Occasion) returns (outcome: Outcome)
    ensures outcome == Classify(lib, tc, ex, occasion)
  {
    if ex.error {
      return OutcomeError;
    }
    if tc.denyWhen.Some? {
      var denied := Dotted.MatchesDeny(lib.text, ex.body, tc.denyWhen.value, lib.order(occasion));
      if denied {
        return OutcomeDeny;
      }
    }
    return ClassifyOutcomeWith(ex.status, false, tc.denyStatuses);
  }

  function Wanted(rule: ResponseAssertion): Value {
    var v := Decode(rule.equals);
    if v.Some? then v.value else Null
  }

  /** A rule matches when its status codes, if any, list the response's and its value,
      if any, is the one selected from the decoded body. */
  predicate RuleMatches(ex: Execution, rule: ResponseAssertion) {
    && (rule.statusCodes != [] ==> ex.status in rule.statusCodes)
    && (rule.equals.Raw? ==>
          && Decode(ex.body).Some?
          && Pointer.PointerValueOf(Decode(ex.body).value, TokensOrNone(rule.pointer)) == Some(Wanted(rule)))
  }

  /** A rule that asks for a number matches a number of the same value, however either is written. */
  lemma RuleMatchesByValue(ex: Execution, rule: ResponseAssertion, wanted: Number.Numeral, found: Number.Numeral)
    requires |wanted.Text()| <= 128 && |found.Text()| <= 128 && rule.equals == NumberBody(wanted)
    requires rule.statusCodes == [] || ex.status in rule.statusCodes
    requires Decode(ex.body).Some?
      && Pointer.PointerValueOf(Decode(ex.body).value, TokensOrNone(rule.pointer)) == Decode(NumberBody(found))
    ensures RuleMatches(ex, rule) <==> Number.Value(wanted) == Number.Value(found)
  {
    hide Decode, Number.Value;
    NumbersDecodeByValue(found, wanted);
    NumbersDecodeByValue(wanted, wanted);
  }

  function MatchedRules(ex: Execution, rules: seq<ResponseAssertion>, n: nat): seq<nat>
    requires n <= |rules|
  {
    if n == 0 then []
    else MatchedRules(ex, rules, n - 1) + if RuleMatches(ex, rules[n - 1]) then [n - 1] else []
  }

  predicate Claims(ex: Execution, rules: seq<ResponseAssertion>, decision: AccessDecision) {
    exists i :: 0 <= i < |rules| && RuleMatches(ex, rules[i]) && rules[i].decision == decision
  }

  function Concluded(id: string, ea: Option<ExpectedAccess>, verdict: Verdict, source: Source, reason: Reason,
      matched: seq<nat>): Assessment {
    Assessment(id, if ea.Some? then Some(ea.value.decision) else None, verdict, source, reason, matched, None)
  }

  function StatusConclusion(id: string, ex: Execution, ea: ExpectedAccess): Assessment {
    var outcome := if ex.outcome.Some? then ex.outcome.value else ClassifyOutcomeWith(ex.status, false, []);
    match outcome
    case OutcomeAllow => Concluded(id, Some(ea), Allowed, HttpStatus, StatusOnly, [])
    case OutcomeDeny => Concluded(id, Some(ea), Denied, HttpStatus, StatusOnly, [])
    case _ => Concluded(id, Some(ea), Inconclusive, HttpStatus, AmbiguousOutcome, [])
  }

  function AssertionConclusion(id: string, ex: Execution, ea: ExpectedAccess): Assessment {
    var rules := ea.assertions;
    var allow, deny := Claims(ex, rules, Allow), Claims(ex, rules, Deny);
    var verdict := if allow == deny then Inconclusive else if allow then Allowed else Denied;
    var reason :=
      if allow && deny then ConflictingAssertions
      else if allow || deny then AssertionMatched
      else if Decode(ex.body).None? then UnsupportedJson
      else NoAssertionMatched;
    Concluded(id, Some(ea), verdict, ByAssertion, reason, MatchedRules(ex, rules, |rules|))
  }

  function Conclusion(id: string, ex: Execution, ea: Option<ExpectedAccess>): Assessment {
    if ea.None? then Concluded(id, ea, Skipped, NoSource, NoExpectation, [])
    else if ea.value.decision.Skip? then Concluded(id, ea, Skipped, NoSource, ExplicitSkip, [])
    else if ex.error || ex.errorKind then Concluded(id, ea, Inconclusive, NoSource, ExecutionError, [])
    else if ea.value.assertions == [] then StatusConclusion(id, ex, ea.value)
    else AssertionConclusion(id, ex, ea.value)
  }

  method Assess(id: string, ex: Execution, ea: Option<ExpectedAccess>) returns (a: Assessment)
    ensures a == Conclusion(id, ex, ea)
  {
    hide Pointer.PointerValueOf;
    a := Assessment(id, if ea.Some? then Some(ea.value.decision) else None, Inconclusive, NoSource, NoReason, [], None);
    if ea.None? {
      a := a.(decision := Skipped, reason := NoExpectation);
      return;
    }
    if ea.value.decision.Skip? {
      a := a.(decision := Skipped, reason := ExplicitSkip);
      return;
    }
    if ex.error || ex.errorKind {
      a := a.(reason := ExecutionError);
      return;
    }
    var rules := ea.value.assertions;
    if |rules| == 0 {
      a := a.(source := HttpStatus, reason := StatusOnly);
      var outcome := if ex.outcome.Some? then ex.outcome.value else ClassifyOutcomeWith(ex.status, false, []);
      match outcome {
        case OutcomeAllow => a := a.(decision := Allowed);
        case OutcomeDeny => a := a.(decision := Denied);
        case _ => a := a.(reason := AmbiguousOutcome);
      }
      return;
    }
    a := a.(source := ByAssertion);
    var doc := Decode(ex.body);
    var allow, deny := false, false;
    assert MatchedRules(ex, rules, 0) == [];
    for i := 0 to |rules|
      invariant a == Concluded(id, ea, Inconclusive, ByAssertion, NoReason, MatchedRules(ex, rules, i))
      invariant allow <==> exists k :: 0 <= k < i && RuleMatches(ex, rules[k]) && rules[k].decision == Allow
      invariant deny <==> exists k :: 0 <= k < i && RuleMatches(ex, rules[k]) && rules[k].decision == Deny
    {
      var rule := rules[i];
      var matches := StatusListed(ex.status, rule.statusCodes);
      if |rule.statusCodes| > 0 && !matches {
        continue;
      }
      if rule.equals.Raw? {
        if doc.None? {
          continue;
        }
        var want := Wanted(rule);
        var got := Pointer.PointerValue(doc.value, TokensOrNone(rule.pointer));
        if got != Some(want) {
          continue;
        }
      }
      assert RuleMatches(ex, rules[i]);
      a := a.(matched := a.matched + [i]);
      allow := allow || rule.decision == Allow;
      deny := deny || rule.decision == Deny;
    }
    if allow && deny {
      a := a.(reason := ConflictingAssertions);
    } else if allow {
      a := a.(decision := Allowed, reason := AssertionMatched);
    } else if deny {
      a := a.(decision := Denied, reason := AssertionMatched);
    } else {
      a := a.(reason := NoAssertionMatched);
      if doc.None? {
        a := a.(reason := UnsupportedJson);
      }
    }
  }

  method StatusListed(status: int, codes: seq<int>) returns (matches: bool)
    ensures matches <==> status in codes
  {
    matches := false;
    for i := 0 to |codes|
      invariant matches <==> status in codes[..i]
    {
      matches := matches || status == codes[i];
    }
    assert codes[..|codes|] == codes;
  }

  // ----- Credentials -----

  /** A 401 to a caller that sent credentials, unless the case says 401 is a refusal. */
  predicate RejectsCredential(tc: TestCase, id: Identity, ex: Execution) {
    !tc.unauthorizedIsDenial && !id.credential.SendsNoAuth() && !ex.error && ex.status == 401
  }

  function Demoted(tc: TestCase, id: Identity, ex: Execution, a: Assessment): (r: Assessment)
    ensures r.identityId == a.identityId && r.expected == a.expected
    ensures r.decision.Allowed? <==> a.decision.Allowed?
    ensures r.decision.Denied? <==> a.decision.Denied? && !(a.expected == Some(Deny) && RejectsCredential(tc, id, ex))
    ensures r != a ==> r == a.(decision := Inconclusive, reason := CredentialRejected)
    ensures RejectsCredential(tc, id, ex) <==>
      && !tc.unauthorizedIsDenial && !(id.credential.kind.StaticHeader? && id.credential.header == "")
      && !ex.error && ex.status == 401
  {
    if a.expected == Some(Deny) && a.decision.Denied? && RejectsCredential(tc, id, ex)
    then a.(decision := Inconclusive, reason := CredentialRejected)
    else a
  }

  // ----- The positive-control guard -----

  /** Some expectation of access was met by a verified write. */
  ghost predicate Calibrated(expected: seq<ExpectedAccess>, verified: map<string, Assessment>) {
    exists i :: 0 <= i < |expected| && expected[i].decision.Allow?
      && expected[i].identityId in verified && verified[expected[i].identityId].decision.Allowed?
  }

  predicate ControlDeclared(expected: seq<ExpectedAccess>) {
    exists i :: 0 <= i < |expected| && expected[i].decision.Allow?
  }

  function Uncalibrated(a: Assessment, reason: Reason): Assessment {
    if a.expected == Some(Deny) && a.decision.Denied? then a.(decision := Inconclusive, reason := reason) else a
  }

  ghost function GuardReason(expected: seq<ExpectedAccess>): Reason {
    if ControlDeclared(expected) then PositiveControlFailed else NoPositiveControl
  }

  /** Verified denials stand only beside a verified legitimate write. */
  ghost function GuardedDenials(expected: seq<ExpectedAccess>,
      verified: map<string, Assessment>): map<string, Assessment> {
    if Calibrated(expected, verified) then verified
    else map id | id in verified :: Uncalibrated(verified[id], GuardReason(expected))
  }

  method GuardVerifiedDenials(expected: seq<ExpectedAccess>,
      start: map<string, Assessment>) returns (verified: map<string, Assessment>)
    ensures verified == GuardedDenials(expected, start)
  {
    verified := start;
    var declared, passed := false, false;
    for i := 0 to |expected|
      invariant declared <==> exists k :: 0 <= k < i && expected[k].decision.Allow?
      invariant passed <==> Calibrated(expected[..i], start)
    {
      var ea := expected[i];
      assert expected[..i + 1] == expected[..i] + [ea];
      if ea.decision.Allow? {
        declared := true;
        var hit := ea.identityId in start && start[ea.identityId].decision.Allowed?;
        CalibratedStep(expected[..i], ea, start);
        passed := passed || hit;
      } else {
        CalibratedStep(expected[..i], ea, start);
      }
    }
    assert expected[..|expected|] == expected;
    if passed {
      return;
    }
    var reason := if declared then PositiveControlFailed else NoPositiveControl;
    var pending := start.Keys;
    while pending != {}
      invariant pending <= start.Keys && verified.Keys == start.Keys
      invariant forall id :: id in pending ==> verified[id] == start[id]
      invariant forall id :: id in start && id !in pending ==> verified[id] == Uncalibrated(start[id], reason)
      decreases pending
    {
      var id :| id in pending;
      pending := pending - {id};
      var a := verified[id];
      if a.expected == Some(Deny) && a.decision.Denied? {
        a := a.(decision := Inconclusive, reason := reason);
        verified := verified[id := a];
      }
    }
    assert verified == GuardedDenials(expected, start);
  }

  lemma CalibratedStep(prefix: seq<ExpectedAccess>, ea: ExpectedAccess, verified: map<string, Assessment>)
    ensures Calibrated(prefix + [ea], verified)
      <==> Calibrated(prefix, verified)
           || (ea.decision.Allow? && ea.identityId in verified && verified[ea.identityId].decision.Allowed?)
  {
    var all := prefix + [ea];
    assert all[|prefix|] == ea;
    assert forall i :: 0 <= i < |prefix| ==> all[i] == prefix[i];
  }

  /** Main result: a denial that survives the guard has a verified legitimate write beside it,
      and every other entry is untouched. */
  lemma NoUncalibratedDenial(expected: seq<ExpectedAccess>, verified: map<string, Assessment>)
    ensures var g := GuardedDenials(expected, verified);
      && g.Keys == verified.Keys
      && (forall id :: id in g && g[id].expected == Some(Deny) && g[id].decision.Denied? ==> Calibrated(expected, g))
      && (forall id :: id in g && !(verified[id].expected == Some(Deny) && verified[id].decision.Denied?) ==>
        g[id] == verified[id])
      && (!Calibrated(expected, verified) ==>
            forall id :: id in g && verified[id].expected == Some(Deny) && verified[id].decision.Denied? ==>
              g[id] == verified[id].(
                decision := Inconclusive,
                reason := if exists i :: 0 <= i < |expected| && expected[i].decision.Allow? then PositiveControlFailed
                  else NoPositiveControl))
  {
    var g := GuardedDenials(expected, verified);
    if !Calibrated(expected, verified) {
      assert forall id :: id in g ==> g[id] == Uncalibrated(verified[id], GuardReason(expected));
    }
  }

  /** Running the guard twice is running it once. */
  lemma GuardIdempotent(expected: seq<ExpectedAccess>, verified: map<string, Assessment>)
    ensures var g := GuardedDenials(expected, verified); GuardedDenials(expected, g) == g
  {
    var g := GuardedDenials(expected, verified);
    var h := GuardedDenials(expected, g);
    assert h.Keys == g.Keys;
    forall id | id in g
      ensures h[id] == g[id]
    {
      assert id in verified;
    }
  }

  // ----- Findings -----

  function RoleRank(hierarchy: seq<string>, role: string): Option<nat> {
    if hierarchy == [] then None
    else if hierarchy[0] == role then Some(0)
    else
      var r :- RoleRank(hierarchy[1..], role);
      Some(r + 1)
  }

  /** A role's rank is the place where the hierarchy first lists it. */
  lemma {:induction false} RankIsFirst(hierarchy: seq<string>, role: string, i: nat)
    ensures RoleRank(hierarchy, role) == Some(i)
      <==> i < |hierarchy| && hierarchy[i] == role && forall j :: 0 <= j < i ==> hierarchy[j] != role
  {
    if hierarchy != [] && hierarchy[0] != role {
      if i > 0 {
        RankIsFirst(hierarchy[1..], role, i - 1);
        assert forall j :: 0 < j < |hierarchy| ==> hierarchy[j] == hierarchy[1..][j - 1];
      }
    }
  }

  function ResourceTenant(lib: Library, res: Option<Resource>, ex: Execution): Option<string> {
    if res.None? then None
    else if res.value.tenant != "" then Some(res.value.tenant)
    else if res.value.tenantField == "" || ex.body.Absent? then None
    else lib.fieldValue(ex.body, res.value.tenantField)
  }

  function ClassifyUnexpectedAccess(lib: Library, tc: TestCase, id: Identity, ex: Execution): (c: Category)
    ensures !c.AuthorizationMismatch?
  {
    var res := tc.resource;
    var tenant := ResourceTenant(lib, res, ex);
    if id.credential.SendsNoAuth() then MissingAuthentication
    else if tenant.Some? && id.tenant != "" && id.tenant != tenant.value then CrossTenantAccess
    else if res.Some? && res.value.owner != "" && id.id != res.value.owner
      && (res.value.objectId != "" || res.value.kind != "") then
      PotentialBola
    else if res.Some? && res.value.requiredRole != "" && tc.roleHierarchy != [] then
      var required, held := RoleRank(tc.roleHierarchy, res.value.requiredRole), RoleRank(tc.roleHierarchy, id.role);
      if required.Some? && held.Some? && held.value < required.value then PrivilegeEscalation else UnexpectedAccess
    else UnexpectedAccess
  }

  /** The resource is identified and belongs to somebody else. */
  predicate ForeignObject(tc: TestCase, id: Identity) {
    tc.resource.Some? && tc.resource.value.owner != "" && id.id != tc.resource.value.owner
    && (tc.resource.value.objectId != "" || tc.resource.value.kind != "")
  }

  /** The resource's tenant, declared or else read from the response, is known and not the identity's own. */
  ghost predicate ForeignTenant(lib: Library, tc: TestCase, id: Identity, ex: Execution) {
    && tc.resource.Some? && id.tenant != ""
    && var res := tc.resource.value;
       if res.tenant != "" then id.tenant != res.tenant
       else
         && res.tenantField != "" && !ex.body.Absent?
         && lib.fieldValue(ex.body, res.tenantField).Some?
         && lib.fieldValue(ex.body, res.tenantField).value != id.tenant
  }

  /** The hierarchy lists the identity's role, for the first time, before the required one. */
  ghost predicate LowerRole(tc: TestCase, id: Identity) {
    && tc.resource.Some? && tc.resource.value.requiredRole != ""
    && exists i: nat, j: nat :: i < j < |tc.roleHierarchy|
         && tc.roleHierarchy[i] == id.role && tc.roleHierarchy[j] == tc.resource.value.requiredRole
         && (forall k :: 0 <= k < j ==> tc.roleHierarchy[k] != tc.resource.value.requiredRole)
  }

  /** Each category is reported exactly when its own condition holds and no more specific one does. */
  lemma CategoryMeans(lib: Library, tc: TestCase, id: Identity, ex: Execution)
    ensures var c := ClassifyUnexpectedAccess(lib, tc, id, ex);
      var anonymous := id.credential.kind.StaticHeader? && id.credential.header == "";
      && (c.MissingAuthentication? <==> anonymous)
      && (c.CrossTenantAccess? <==> !anonymous && ForeignTenant(lib, tc, id, ex))
      && (c.PotentialBola? <==> !anonymous && !ForeignTenant(lib, tc, id, ex) && ForeignObject(tc, id))
      && (c.PrivilegeEscalation? <==>
        !anonymous && !ForeignTenant(lib, tc, id, ex) && !ForeignObject(tc, id) && LowerRole(tc, id))
  {
    hide RoleRank;
    if tc.resource.Some? && tc.resource.value.requiredRole != "" {
      LowerRoleByRank(tc, id);
    }
  }

  lemma LowerRoleByRank(tc: TestCase, id: Identity)
    requires tc.resource.Some? && tc.resource.value.requiredRole != ""
    ensures var required, held := RoleRank(tc.roleHierarchy, tc.resource.value.requiredRole),
      RoleRank(tc.roleHierarchy, id.role);
      LowerRole(tc, id) <==> required.Some? && held.Some? && held.value < required.value
  {
    hide RoleRank;
    var h, wanted := tc.roleHierarchy, tc.resource.value.requiredRole;
    var required, held := RoleRank(h, wanted), RoleRank(h, id.role);
    if LowerRole(tc, id) {
      var i: nat, j: nat :| i < j < |h| && h[i] == id.role && h[j] == wanted && forall k :: 0 <= k < j ==>
        h[k] != wanted;
      RankIsFirst(h, wanted, j);
      var n := FirstPlace(h, id.role, i);
    }
    if required.Some? && held.Some? {
      RankIsFirst(h, wanted, required.value);
      RankIsFirst(h, id.role, held.value);
    }
  }

  lemma {:induction false} FirstPlace(h: seq<string>, role: string, i: nat) returns (n: nat)
    requires i < |h| && h[i] == role
    ensures n <= i && RoleRank(h, role) == Some(n)
    decreases i
  {
    if j :| 0 <= j < i && h[j] == role {
      n := FirstPlace(h, role, j);
    } else {
      n := i;
      RankIsFirst(h, role, i);
    }
  }

  /** The status path: the response is classified once more. */
  ghost function Evaluate(lib: Library, tc: TestCase, id: Identity, ex: Execution,
      expected: AccessDecision): Option<Finding> {
    if ex.error then None
    else
      var outcome := Classify(lib, tc, ex, Reporting(id.id));
      if expected.Deny? && outcome.OutcomeAllow? then Some(Finding(ClassifyUnexpectedAccess(lib, tc, id, ex), id.id))
      else if expected.Allow? && outcome.OutcomeDeny? then Some(Finding(AuthorizationMismatch, id.id))
      else None
  }

  method EvaluateResponse(lib: Library, tc: TestCase, id: Identity, ex: Execution, expected: AccessDecision)
    returns (f: Option<Finding>)
    ensures f == Evaluate(lib, tc, id, ex, expected)
  {
    hide Classify, ClassifyUnexpectedAccess;
    if ex.error {
      return None;
    }
    var outcome := ClassifyResponse(lib, tc, ex, Reporting(id.id));
    if expected.Deny? && outcome.OutcomeAllow? {
      return Some(Finding(ClassifyUnexpectedAccess(lib, tc, id, ex), id.id));
    } else if expected.Allow? && outcome.OutcomeDeny? {
      return Some(Finding(AuthorizationMismatch, id.id));
    }
    return None;
  }

  /** The assertion and verified-write paths. */
  function AssessmentFinding(lib: Library, tc: TestCase, id: Identity, ex: Execution, ea: ExpectedAccess,
      a: Assessment): Option<Finding> {
    if a.decision.Allowed? && ea.decision.Deny? then Some(Finding(ClassifyUnexpectedAccess(lib, tc, id, ex), id.id))
    else if a.decision.Denied? && ea.decision.Allow? then Some(Finding(AuthorizationMismatch, id.id))
    else None
  }

  /** An assessment contradicts the expectation it was made against. */
  predicate Contradicts(expected: Option<AccessDecision>, decision: Verdict) {
    (expected == Some(Deny) && decision.Allowed?) || (expected == Some(Allow) && decision.Denied?)
  }
}
