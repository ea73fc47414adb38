/** The engine's data: identities, requests, test cases, executions and assessments,
    and the classification of responses they are judged by. */
module Model {
  import opened Basics
  import opened Json

  datatype CredentialType = Bearer | ApiKeyHeader | StaticHeader

  datatype Credential = Credential(kind: CredentialType, header: string, value: string) {
    predicate SendsNoAuth() {
      kind.StaticHeader? && header == ""
    }
  }

  datatype Preflight = Preflight(url: string, expectedStatus: int, fields: map<string, string>)

  datatype Identity = Identity(id: string, role: string, tenant: string, credential: Credential,
      preflight: Option<Preflight>)

  datatype Request = Request(verb: string, url: string, headers: map<string, string>, query: map<string, string>,
      body: Raw)

  datatype AccessDecision = Allow | Deny | Skip

  datatype ResponseAssertion = ResponseAssertion(statusCodes: seq<int>, pointer: string, equals: Raw,
      decision: AccessDecision)

  datatype ExpectedAccess = ExpectedAccess(identityId: string, decision: AccessDecision,
      assertions: seq<ResponseAssertion>)

  datatype SetupStep = SetupStep(name: string, actor: string, request: Request, capture: map<string, string>)

  /** Legacy and LegacyEnvironment stand for an omitted strategy and environment. */
  datatype Strategy = Legacy | Changed | Created | Deleted
  datatype Environment = LegacyEnvironment | Unknown | SynchronousIsolated

  datatype WriteVerification = WriteVerification(
    strategy: Strategy, afterStatus: seq<int>, reset: Option<SetupStep>, identity: Identity, request: Request,
    environment: Environment, allowUnsafe: bool, pointer: string, changedTo: Raw)

  datatype Resource = Resource(
    kind: string, objectId: string, owner: string, tenant: string, requiredRole: string, tenantField: string)

  datatype DenyCondition = DenyCondition(bodyContains: seq<string>, path: string, equals: string)

  datatype TestCase = TestCase(
    id: string, requirePreflight: bool, identities: seq<Identity>, request: Request, resource: Option<Resource>,
    roleHierarchy: seq<string>, denyStatuses: seq<int>, unauthorizedIsDenial: bool, denyWhen: Option<DenyCondition>,
    mutating: bool, verification: Option<WriteVerification>, setup: seq<SetupStep>, corsProbe: string,
    expected: seq<ExpectedAccess>)

  // ----- Responses -----

  datatype Outcome =
    | OutcomeAllow
    | OutcomeDeny
    | OutcomeNotFound
    | OutcomeRedirect
    | OutcomeServerError
    | OutcomeClientError
    | OutcomeError

  /** error and errorKind record whether those fields are set; outcome is None while unclassified. */
  datatype Execution = Execution(status: int, body: Raw, error: bool, errorKind: bool, outcome: Option<Outcome>)

  const NO_EXECUTION := Execution(0, Absent, false, false, None)

  /** The record of a request that was not sent. */
  const WITHHELD := Execution(0, Absent, true, true, None)

  predicate Success(status: int) {
    200 <= status < 300
  }

  function ClassifyOutcomeWith(status: int, hasError: bool, denyStatuses: seq<int>): (o: Outcome)
    ensures o.OutcomeAllow? <==> !hasError && Success(status) && status !in denyStatuses
    ensures o.OutcomeDeny? <==> !hasError && (status in denyStatuses || status == 401 || status == 403)
    ensures o.OutcomeNotFound? <==> !hasError && status == 404 && status !in denyStatuses
    ensures o.OutcomeRedirect? <==> !hasError && 300 <= status < 400 && status !in denyStatuses
    ensures o.OutcomeServerError? <==> !hasError && status >= 500 && status !in denyStatuses
    ensures o.OutcomeClientError? <==>
      !hasError && 400 <= status < 500 && status !in denyStatuses && status != 401 && status != 403 && status != 404
    ensures o.OutcomeError? <==> hasError || (status < 200 && status !in denyStatuses)
  {
    if hasError then OutcomeError
    else if status in denyStatuses then OutcomeDeny
    else if 200 <= status < 300 then OutcomeAllow
    else if status == 401 || status == 403 then OutcomeDeny
    else if status == 404 then OutcomeNotFound
    else if 300 <= status < 400 then OutcomeRedirect
    else if status >= 500 then OutcomeServerError
    else if status >= 400 then OutcomeClientError
    else OutcomeError
  }

  // ----- Assessments and findings -----

  datatype Verdict = Allowed | Denied | Inconclusive | Skipped

  datatype Source = NoSource | HttpStatus | ByAssertion | ByVerification

  datatype Reason =
    | NoReason
    | NoExpectation
    | ExplicitSkip
    | ExecutionError
    | StatusOnly
    | AmbiguousOutcome
    | ConflictingAssertions
    | AssertionMatched
    | NoAssertionMatched
    | UnsupportedJson
    | StateChanged
    | StateUnchanged
    | VerifierReadFailed
    | VerifierDenied
    | VerifierValueMissing
    | BaselineMissing
    | ConcurrentChange
    | TargetAlreadyPresent
    | ChangedUnexpectedly
    | VerifierStatus
    | WriteFailed
    | NoPositiveControl
    | PositiveControlFailed
    | WritePending
    | WriteEnvironment
    | ResetFailed
    | ResetBaseline
    | Cancelled
    | CredentialRejected
    | PreflightFailed
    | UnexpectedStatus
    | IdentityMismatch
    | IdentityVerified

  datatype Evidence = Evidence(beforeStatuses: seq<int>, afterStatus: int, resetStatus: int)

  /** expected is None for an identity without an expectation. */
  datatype Assessment = Assessment(
    identityId: string, expected: Option<AccessDecision>, decision: Verdict, source: Source, reason: Reason,
    matched: seq<nat>, evidence: Option<Evidence>)

  datatype Category =
    | MissingAuthentication
    | CrossTenantAccess
    | PotentialBola
    | PrivilegeEscalation
    | UnexpectedAccess
    | AuthorizationMismatch

  datatype Finding = Finding(category: Category, identityId: string)

  datatype PreflightResult = PreflightResult(identityId: string, passed: bool, reason: Reason, status: int)

  // ----- Lookups -----

  function ExpectedFor(expected: seq<ExpectedAccess>, id: string): (r: Option<ExpectedAccess>)
    ensures r.Some? ==> r.value in expected && r.value.identityId == id
    ensures r.None? ==> forall ea :: ea in expected ==> ea.identityId != id
  {
    if expected == [] then None
    else if expected[0].identityId == id then Some(expected[0])
    else ExpectedFor(expected[1..], id)
  }

  /** The entry found is the first one. */
  lemma {:induction false} ExpectedIsFirst(expected: seq<ExpectedAccess>, id: string, i: nat)
    requires i < |expected| && expected[i].identityId == id && forall j :: 0 <= j < i ==> expected[j].identityId != id
    ensures ExpectedFor(expected, id) == Some(expected[i])
    decreases |expected|
  {
    if i > 0 {
      ExpectedIsFirst(expected[1..], id, i - 1);
    }
  }

  /** And here it is the last one. */
  lemma {:induction false} LastIsLast(expected: seq<ExpectedAccess>, id: string, i: nat)
    requires i < |expected| && expected[i].identityId == id
    requires forall j :: i < j < |expected| ==> expected[j].identityId != id
    ensures LastExpected(expected, id) == Some(expected[i])
    decreases |expected|
  {
    var n := |expected| - 1;
    if i < n {
      assert expected[n].identityId != id;
      LastIsLast(expected[..n], id, i);
    }
  }

  /** The entry a map filled in order would hold: the last one. */
  function LastExpected(expected: seq<ExpectedAccess>, id: string): (r: Option<ExpectedAccess>)
    ensures r.Some? ==> r.value in expected && r.value.identityId == id
    ensures r.None? ==> forall ea :: ea in expected ==> ea.identityId != id
  {
    if expected == [] then None
    else if expected[|expected| - 1].identityId == id then Some(expected[|expected| - 1])
    else LastExpected(expected[..|expected| - 1], id)
  }

  /** Whether the case gives this identity an allow or deny expectation. */
  predicate Assessed(tc: TestCase, id: string) {
    ExpectedFor(tc.expected, id).Some? && !ExpectedFor(tc.expected, id).value.decision.Skip?
  }

  predicate IsVerified(tc: TestCase, id: string) {
    tc.verification.Some? && Assessed(tc, id)
  }

  ghost predicate UniqueExpectations(tc: TestCase) {
    forall i, j :: 0 <= i < j < |tc.expected| ==> tc.expected[i].identityId != tc.expected[j].identityId
  }

  ghost predicate DistinctIdentities(ids: seq<Identity>) {
    forall i, j :: 0 <= i < j < |ids| ==> ids[i].id != ids[j].id
  }

  lemma UniqueLookup(tc: TestCase, id: string)
    requires UniqueExpectations(tc)
    ensures ExpectedFor(tc.expected, id) == LastExpected(tc.expected, id)
  {
    var a, b := ExpectedFor(tc.expected, id), LastExpected(tc.expected, id);
    if a.Some? {
      var i :| 0 <= i < |tc.expected| && tc.expected[i] == a.value;
      var j :| 0 <= j < |tc.expected| && tc.expected[j] == b.value;
      assert i == j;
    }
  }
}
