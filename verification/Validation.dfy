/** The consistency checks a test case must pass before anything is sent. */
module Validation {
  import opened Json
  import opened Model
  import opened Server
  import opened Substitution
  import opened Verify

  predicate ValidCredential(c: Credential) {
    match c.kind
    case Bearer => c.value != ""
    case ApiKeyHeader => c.value != ""
    case StaticHeader => c.value != "" ==> c.header != ""
  }

  predicate KnownId(ids: seq<Identity>, id: string) {
    exists i :: 0 <= i < |ids| && ids[i].id == id
  }

  predicate ValidAssertion(rule: ResponseAssertion) {
    && (forall i :: 0 <= i < |rule.statusCodes| ==> 100 <= rule.statusCodes[i] <= 599)
    && if rule.equals.Absent? && rule.pointer == "" && rule.statusCodes != [] && rule.decision.Deny? then
         forall i :: 0 <= i < |rule.statusCodes| ==> 400 <= rule.statusCodes[i] <= 499
       else
         && !rule.decision.Skip?
         && |rule.pointer| <= 1024 && Pointer.Tokens(rule.pointer).Some?
         && Decode(rule.equals).Some?
  }

  predicate ValidExpected(ids: seq<Identity>, ea: ExpectedAccess) {
    && ea.identityId != "" && KnownId(ids, ea.identityId)
    && |ea.assertions| <= 32
    && forall i :: 0 <= i < |ea.assertions| ==> ValidAssertion(ea.assertions[i])
  }

  predicate ValidStep(lib: Library, tc: TestCase, step: SetupStep) {
    && step.request.verb != "" && step.request.url != ""
    && (step.actor != "" ==> KnownId(tc.identities, step.actor))
    && (forall name :: name in step.capture ==> name != "" && step.capture[name] != "")
    && (lib.isUnsafe(step.request.verb) ==> tc.mutating)
  }

  ghost predicate ValidSetup(lib: Library, tc: TestCase) {
    && (forall i :: 0 <= i < |tc.setup| ==> ValidStep(lib, tc, tc.setup[i]))
    && forall i, j :: 0 <= i < j < |tc.setup| && tc.setup[i].name != "" ==> tc.setup[i].name != tc.setup[j].name
  }

  /** How many expectations are not skipped. */
  function AssessedCount(expected: seq<ExpectedAccess>): nat {
    if expected == [] then 0
    else (if expected[0].decision.Skip? then 0 else 1) + AssessedCount(expected[1..])
  }

  predicate ValidVerification(lib: Library, tc: TestCase, wv: WriteVerification) {
    && (!wv.strategy.Legacy? ==> wv.environment.SynchronousIsolated?)
    && (wv.afterStatus != [] ==> wv.strategy.Changed?)
    && (forall i :: 0 <= i < |wv.afterStatus| ==> 400 <= wv.afterStatus[i] <= 499)
    && (wv.strategy.Created? || wv.strategy.Deleted? ==> wv.changedTo.Absent?)
    && (wv.strategy.Changed? && wv.pointer == "" ==> wv.afterStatus != [])
    && (wv.reset.Some? ==>
          && !wv.strategy.Legacy? && wv.reset.value.capture == map[]
          && lib.sameOrigin(wv.reset.value.request.url, tc.request.url)
          && ValidStep(lib, tc, wv.reset.value))
    && tc.mutating
    && wv.identity.id != "" && !KnownId(tc.identities, wv.identity.id) && ValidCredential(wv.identity.credential)
    && wv.request.url != "" && lib.sameOrigin(wv.request.url, tc.request.url)
    && (lib.isUnsafe(VerifierMethod(lib, wv)) ==> wv.allowUnsafe)
    && Pointer.Tokens(wv.pointer).Some? && |wv.pointer| <= 1024
    && (AssessedCount(tc.expected) > 1 ==>
          wv.changedTo.Raw? || wv.strategy.Created? || wv.strategy.Deleted? || (wv.strategy.Changed? && wv.reset.Some?))
    && (wv.changedTo.Raw? ==> Decode(wv.changedTo).Some? && wv.pointer != "")
  }

  function PreflightIdentities(tc: TestCase): seq<Identity> {
    tc.identities
    + if tc.verification.Some? && tc.verification.value.identity.preflight.Some? then [tc.verification.value.identity]
      else []
  }

  predicate ValidPreflight(lib: Library, tc: TestCase, id: Identity) {
    id.preflight.Some? ==>
      var p := id.preflight.value;
      && |id.id| <= 200
      && !id.credential.SendsNoAuth() && id.credential.value != ""
      && lib.httpOrigin(p.url).Some? && lib.httpOrigin(p.url) == lib.httpOrigin(tc.request.url)
      && Index(p.url, "{{") < 0 && Index(p.url, "${") < 0
      && 200 <= p.expectedStatus <= 299
      && 1 <= |p.fields| <= 8
      && forall path :: path in p.fields ==> lib.fieldOk(path, p.fields[path])
  }

  /** In strict mode every assessed identity that authenticates declares a preflight. */
  ghost predicate StrictlyAssured(tc: TestCase) {
    tc.requirePreflight ==>
      && (exists i :: 0 <= i < |tc.identities| && Assessed(tc, tc.identities[i].id))
      && forall i ::
           (0 <= i < |tc.identities| && Assessed(tc, tc.identities[i].id) && !tc.identities[i].credential.SendsNoAuth())
           ==> tc.identities[i].preflight.Some?
  }

  ghost predicate ValidPreflights(lib: Library, tc: TestCase) {
    && StrictlyAssured(tc)
    && forall i :: 0 <= i < |PreflightIdentities(tc)| ==> ValidPreflight(lib, tc, PreflightIdentities(tc)[i])
  }

  predicate ValidIdentity(id: Identity) {
    id.id != "" && ValidCredential(id.credential)
  }

  ghost predicate Valid(lib: Library, tc: TestCase) {
    && tc.id != "" && tc.identities != []
    && (forall i :: 0 <= i < |tc.identities| ==> ValidIdentity(tc.identities[i]))
    && DistinctIdentities(tc.identities)
    && tc.request.verb != "" && tc.request.url != ""
    && (lib.isUnsafe(tc.request.verb) ==> tc.mutating)
    && (forall i :: 0 <= i < |tc.expected| ==> ValidExpected(tc.identities, tc.expected[i]))
    && (tc.verification.Some? ==> ValidVerification(lib, tc, tc.verification.value))
    && ValidSetup(lib, tc)
    && ValidPreflights(lib, tc)
    && (forall i :: 0 <= i < |tc.denyStatuses| ==> 100 <= tc.denyStatuses[i] <= 599 && !Success(tc.denyStatuses[i]))
    && (tc.resource.Some? ==>
          && (tc.resource.value.owner != "" ==> KnownId(tc.identities, tc.resource.value.owner))
          && (tc.resource.value.requiredRole != "" ==> tc.resource.value.requiredRole in tc.roleHierarchy))
  }

  // ----- The checks as the engine runs them -----

  method CheckIdentities(ids: seq<Identity>) returns (ok: bool)
    ensures ok <==> (forall i :: 0 <= i < |ids| ==> ValidIdentity(ids[i])) && DistinctIdentities(ids)
  {
    var seen: set<string> := {};
    for i := 0 to |ids|
      invariant forall k :: 0 <= k < i ==> ValidIdentity(ids[k])
      invariant DistinctIdentities(ids[..i])
      invariant forall x :: x in seen <==> exists k :: 0 <= k < i && ids[k].id == x
    {
      if ids[i].id == "" || ids[i].id in seen || !ValidCredential(ids[i].credential) {
        return false;
      }
      seen := seen + {ids[i].id};
    }
    assert ids[..|ids|] == ids;
    return true;
  }

  method CheckSetup(lib: Library, tc: TestCase) returns (ok: bool)
    ensures ok <==> ValidSetup(lib, tc)
  {
    var names: set<string> := {};
    for i := 0 to |tc.setup|
      invariant forall k :: 0 <= k < i ==> ValidStep(lib, tc, tc.setup[k])
      invariant forall k, j :: 0 <= k < j < i && tc.setup[k].name != "" ==> tc.setup[k].name != tc.setup[j].name
      invariant forall x :: x in names <==> exists k :: 0 <= k < i && tc.setup[k].name == x && x != ""
    {
      var step := tc.setup[i];
      if !ValidStep(lib, tc, step) || (step.name != "" && step.name in names) {
        return false;
      }
      if step.name != "" {
        names := names + {step.name};
      }
    }
    return true;
  }

  method CheckStrict(tc: TestCase) returns (ok: bool)
    ensures ok <==> StrictlyAssured(tc)
  {
    if !tc.requirePreflight {
      return true;
    }
    var assessed := 0;
    for i := 0 to |tc.identities|
      invariant assessed >= 0
      invariant assessed > 0 <==> exists k :: 0 <= k < i && Assessed(tc, tc.identities[k].id)
      invariant forall k ::
        (0 <= k < i && Assessed(tc, tc.identities[k].id) && !tc.identities[k].credential.SendsNoAuth())
        ==> tc.identities[k].preflight.Some?
    {
      if Assessed(tc, tc.identities[i].id) {
        assessed := assessed + 1;
        if !tc.identities[i].credential.SendsNoAuth() && tc.identities[i].preflight.None? {
          return false;
        }
      }
    }
    return assessed > 0;
  }

  method Validate(lib: Library, tc: TestCase) returns (ok: bool)
    ensures ok <==> Valid(lib, tc)
  {
    if tc.id == "" || tc.identities == [] {
      return false;
    }
    var identities := CheckIdentities(tc.identities);
    if !identities || tc.request.verb == "" || tc.request.url == "" || (lib.isUnsafe(tc.request.verb) && !tc.mutating) {
      return false;
    }
    for i := 0 to |tc.expected|
      invariant forall k :: 0 <= k < i ==> ValidExpected(tc.identities, tc.expected[k])
    {
      if !ValidExpected(tc.identities, tc.expected[i]) {
        return false;
      }
    }
    if tc.verification.Some? && !ValidVerification(lib, tc, tc.verification.value) {
      return false;
    }
    var setup := CheckSetup(lib, tc);
    if !setup {
      return false;
    }
    var strict := CheckStrict(tc);
    if !strict {
      return false;
    }
    var probed := PreflightIdentities(tc);
    for i := 0 to |probed|
      invariant forall k :: 0 <= k < i ==> ValidPreflight(lib, tc, probed[k])
    {
      if !ValidPreflight(lib, tc, probed[i]) {
        return false;
      }
    }
    for i := 0 to |tc.denyStatuses|
      invariant forall k :: 0 <= k < i ==> 100 <= tc.denyStatuses[k] <= 599 && !Success(tc.denyStatuses[k])
    {
      if tc.denyStatuses[i] < 100 || tc.denyStatuses[i] > 599 || Success(tc.denyStatuses[i]) {
        return false;
      }
    }
    if tc.resource.Some? {
      var r := tc.resource.value;
      if r.owner != "" && !KnownId(tc.identities, r.owner) {
        return false;
      }
      if r.requiredRole != "" && r.requiredRole !in tc.roleHierarchy {
        return false;
      }
    }
    return true;
  }
}
