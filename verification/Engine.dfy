/** A whole run: validation, setup, preflight, one pass that executes every identity
    and one that concludes about each. */
module Engine {
  import opened Basics
  import opened Model
  import opened Server
  import opened Verify
  import opened Validation
  import opened Judgement
  import opened Setup

  datatype RunResult = RunResult(
    executions: seq<Execution>, findings: seq<Finding>, assessments: seq<Assessment>, preflight: seq<PreflightResult>)

  datatype RunOutcome = Rejected | SetupFailed | Finished(result: RunResult)

  // ----- The order identities are executed in -----

  predicate DenyFirst(tc: TestCase, id: Identity) {
    var ea := ExpectedFor(tc.expected, id.id);
    ea.Some? && ea.value.decision.Deny?
  }

  function Select(tc: TestCase, ids: seq<Identity>, deny: bool): seq<Identity> {
    if ids == [] then []
    else (if DenyFirst(tc, ids[0]) == deny then [ids[0]] else []) + Select(tc, ids[1..], deny)
  }

  /** Deny-expected identities first when writes are verified, each group in declared order. */
  function ExecutionOrder(tc: TestCase): seq<Identity> {
    if tc.verification.None? then tc.identities
    else Select(tc, tc.identities, true) + Select(tc, tc.identities, false)
  }

  method OrderIdentities(tc: TestCase) returns (order: seq<Identity>)
    ensures order == ExecutionOrder(tc)
  {
    if tc.verification.None? {
      return tc.identities;
    }
    var deny, rest: seq<Identity> := [], [];
    var ids := tc.identities;
    assert ids[0..] == ids && ids[|ids|..] == [];
    BuildEnds(deny, Select(tc, ids, true));
    BuildEnds(rest, Select(tc, ids, false));
    for i := 0 to |ids|
      invariant Builds(deny, Select(tc, ids[i..], true), Select(tc, ids, true))
      invariant Builds(rest, Select(tc, ids[i..], false), Select(tc, ids, false))
    {
      hide Builds;
      Tail(ids, i);
      if DenyFirst(tc, ids[i]) {
        BuildStep(deny, [ids[i]], Select(tc, ids[i + 1..], true), Select(tc, ids, true));
        BuildStep(rest, [], Select(tc, ids[i + 1..], false), Select(tc, ids, false));
        deny := deny + [ids[i]];
        assert rest + [] == rest;
      } else {
        BuildStep(deny, [], Select(tc, ids[i + 1..], true), Select(tc, ids, true));
        BuildStep(rest, [ids[i]], Select(tc, ids[i + 1..], false), Select(tc, ids, false));
        rest := rest + [ids[i]];
        assert deny + [] == deny;
      }
    }
    BuildEnds(deny, Select(tc, ids, true));
    BuildEnds(rest, Select(tc, ids, false));
    return deny + rest;
  }

  // ----- First pass -----

  /** Executions and verified assessments so far, with the shared reset baseline. */
  datatype Pass<+S> = Pass(world: World<S>, session: Option<Observed>, executions: map<string, Execution>,
      verified: map<string, Assessment>)

  /** The executor knows nothing of declared deny conventions. */
  ghost function Reclassified(lib: Library, tc: TestCase, id: string, ex: Execution): Execution {
    if ex.error then ex else ex.(outcome := Some(Classify(lib, tc, ex, Recording(id))))
  }

  /** The request under test, with the probe origin added when CORS is probed. */
  function TestRequest(tc: TestCase): Request {
    if tc.corsProbe == "" then tc.request
    else tc.request.(headers := tc.request.headers["Origin" := tc.corsProbe])
  }

  ghost function ExecuteOne<S>(p: Platform<S>, tc: TestCase, id: Identity, pass: Pass<S>): Pass<S> {
    if IsVerified(tc, id.id) then
      var ea := ExpectedFor(tc.expected, id.id).value;
      var a := VerifiedExecute(p, tc, tc.verification.value, id, TestRequest(tc), ea, pass.world, pass.session);
      Pass(a.world, a.session,
           pass.executions[id.id := Reclassified(p.library, tc, id.id, a.execution)],
           pass.verified[id.id := Demoted(tc, id, a.execution, a.assessment)])
    else
      var (w', ex) := Send(p, pass.world, Call(ResourcePhase, id, TestRequest(tc)));
      Pass(w', pass.session, pass.executions[id.id := Reclassified(p.library, tc, id.id, ex)], pass.verified)
  }

  ghost function ExecuteAll<S>(p: Platform<S>, tc: TestCase, order: seq<Identity>, pass: Pass<S>): Pass<S> {
    if order == [] then pass else ExecuteAll(p, tc, order[1..], ExecuteOne(p, tc, order[0], pass))
  }

  lemma ExecuteAllStep<S>(p: Platform<S>, tc: TestCase, order: seq<Identity>, i: nat, pass: Pass<S>)
    requires i < |order|
    ensures ExecuteAll(p, tc, order[i..], pass) == ExecuteAll(p, tc, order[i + 1..], ExecuteOne(p, tc, order[i], pass))
  {
    hide ExecuteOne;
    assert order[i..][1..] == order[i + 1..];
  }

  lemma ExecuteAllEnds<S>(p: Platform<S>, tc: TestCase, pass: Pass<S>)
    ensures ExecuteAll(p, tc, [], pass) == pass
  {
  }

  // ----- Second pass -----

  function ExecutionOf(executions: map<string, Execution>, id: string): Execution {
    if id in executions then executions[id] else NO_EXECUTION
  }

  function FinalAssessment(tc: TestCase, executions: map<string, Execution>, verified: map<string, Assessment>,
      id: Identity): Assessment {
    if id.id in verified then verified[id.id]
    else
      var ex := ExecutionOf(executions, id.id);
      Demoted(tc, id, ex, Conclusion(id.id, ex, LastExpected(tc.expected, id.id)))
  }

  ghost function AccessFinding(lib: Library, tc: TestCase, executions: map<string, Execution>,
      verified: map<string, Assessment>, id: Identity): Option<Finding> {
    var ea, ex := LastExpected(tc.expected, id.id), ExecutionOf(executions, id.id);
    if ea.None? || ea.value.decision.Skip? then None
    else if id.id in verified || ea.value.assertions != [] then
      AssessmentFinding(lib, tc, id, ex, ea.value, FinalAssessment(tc, executions, verified, id))
    else Evaluate(lib, tc, id, ex, ea.value.decision)
  }

  function Assessments(tc: TestCase, executions: map<string, Execution>, verified: map<string, Assessment>,
      ids: seq<Identity>): seq<Assessment> {
    if ids == [] then []
    else [FinalAssessment(tc, executions, verified, ids[0])] + Assessments(tc, executions, verified, ids[1..])
  }

  ghost function Findings(lib: Library, tc: TestCase, executions: map<string, Execution>,
      verified: map<string, Assessment>, ids: seq<Identity>): seq<Finding> {
    if ids == [] then []
    else
      var f := AccessFinding(lib, tc, executions, verified, ids[0]);
      (if f.Some? then [f.value] else []) + Findings(lib, tc, executions, verified, ids[1..])
  }

  function Executions(executions: map<string, Execution>, ids: seq<Identity>): seq<Execution> {
    if ids == [] then [] else [ExecutionOf(executions, ids[0].id)] + Executions(executions, ids[1..])
  }

  ghost function Conclude(lib: Library, tc: TestCase, executions: map<string, Execution>,
      verified: map<string, Assessment>, preflight: seq<PreflightResult>): RunResult {
    RunResult(Executions(executions, tc.identities), Findings(lib, tc, executions, verified, tc.identities),
              Assessments(tc, executions, verified, tc.identities), preflight)
  }

  // ----- The run -----

  /** When a preflight fails nothing else is sent and nothing is concluded. */
  function UnreadyAssessment(tc: TestCase, id: Identity): Assessment {
    var ea := ExpectedFor(tc.expected, id.id);
    if ea.None? then Concluded(id.id, ea, Skipped, NoSource, NoExpectation, [])
    else if ea.value.decision.Skip? then Concluded(id.id, ea, Skipped, NoSource, ExplicitSkip, [])
    else Concluded(id.id, ea, Inconclusive, NoSource, PreflightFailed, [])
  }

  function UnreadyAssessments(tc: TestCase, ids: seq<Identity>): seq<Assessment> {
    if ids == [] then [] else [UnreadyAssessment(tc, ids[0])] + UnreadyAssessments(tc, ids[1..])
  }

  ghost function FirstPass<S>(p: Platform<S>, tc: TestCase, w: World<S>): Pass<S> {
    ExecuteAll(p, tc, ExecutionOrder(tc), Pass(w, None, map[], map[]))
  }

  ghost function RunReady<S>(p: Platform<S>, tc: TestCase, w: World<S>, preflight: seq<PreflightResult>): (World<S>,
      RunResult) {
    var pass := FirstPass(p, tc, w);
    (pass.world, Conclude(p.library, tc, pass.executions, GuardedDenials(tc.expected, pass.verified), preflight))
  }

  ghost function RunBound<S>(p: Platform<S>, tc: TestCase, w: World<S>): (World<S>, RunResult) {
    var (w', preflight) := Probe(p, PreflightIdentities(tc), w);
    if AllPassed(preflight) then RunReady(p, tc, w', preflight)
    else (w', RunResult([], [], UnreadyAssessments(tc, tc.identities), preflight))
  }

  ghost function Run<S>(p: Platform<S>, tc: TestCase, w: World<S>): (World<S>, RunOutcome) {
    if !Valid(p.library, tc) then (w, Rejected)
    else
      var (w', vars) := RunSetupFrom(p, tc, 0, w, map[]);
      var bound := if vars.None? then None else ApplyVars(p.library, tc, vars.value);
      if bound.None? then (w', SetupFailed)
      else
        var (w'', result) := RunBound(p, bound.value, w');
        (w'', Finished(result))
  }

  method ExecuteIdentities<S>(exec: Executor<S>, tc: TestCase) returns (executions: map<string, Execution>,
      verified: map<string, Assessment>)
    modifies exec
    ensures var pass := FirstPass(exec.platform, tc, old(exec.Snapshot()));
      exec.Snapshot() == pass.world && executions == pass.executions && verified == pass.verified
  {
    hide VerifiedExecute, Send, ExecuteAll;
    var session := new Session();
    executions, verified := map[], map[];
    var order := OrderIdentities(tc);
    var req := tc.request;
    if tc.corsProbe != "" {
      req := req.(headers := req.headers["Origin" := tc.corsProbe]);
    }
    assert order[0..] == order && order[|order|..] == [];
    for i := 0 to |order|
      invariant ExecuteAll(exec.platform, tc, order[i..], Pass(exec.Snapshot(), session.baseline, executions, verified))
             == FirstPass(exec.platform, tc, old(exec.Snapshot()))
    {
      var id := order[i];
      ExecuteAllStep(exec.platform, tc, order, i, Pass(exec.Snapshot(), session.baseline, executions, verified));
      var ex: Execution;
      var ea := ExpectedFor(tc.expected, id.id);
      if ea.Some? && tc.verification.Some? && !ea.value.decision.Skip? {
        var a;
        ex, a := ExecuteVerified(exec, session, tc, tc.verification.value, id, req, ea.value);
        verified := verified[id.id := Demoted(tc, id, ex, a)];
      } else {
        ex := exec.Execute(Call(ResourcePhase, id, req));
      }
      if !ex.error {
        var outcome := ClassifyResponse(exec.platform.library, tc, ex, Recording(id.id));
        ex := ex.(outcome := Some(outcome));
      }
      executions := executions[id.id := ex];
    }
    ExecuteAllEnds(exec.platform, tc, Pass(exec.Snapshot(), session.baseline, executions, verified));
  }

  method ExecutionsInOrder(executions: map<string, Execution>, ids: seq<Identity>) returns (r: seq<Execution>)
    ensures r == Executions(executions, ids)
  {
    r := [];
    assert ids[0..] == ids && ids[|ids|..] == [];
    BuildEnds(r, Executions(executions, ids));
    for i := 0 to |ids|
      invariant Builds(r, Executions(executions, ids[i..]), Executions(executions, ids))
    {
      hide Builds;
      Tail(ids, i);
      BuildStep(r, [ExecutionOf(executions, ids[i].id)], Executions(executions, ids[i + 1..]),
        Executions(executions, ids));
      r := r + [ExecutionOf(executions, ids[i].id)];
    }
    BuildEnds(r, Executions(executions, ids));
  }

  method ConcludeAll(lib: Library, tc: TestCase, executions: map<string, Execution>, verified: map<string, Assessment>,
      preflight: seq<PreflightResult>) returns (r: RunResult)
    ensures r == Conclude(lib, tc, executions, verified, preflight)
  {
    var ids := tc.identities;
    var ordered := ExecutionsInOrder(executions, ids);
    var assessments: seq<Assessment>, findings: seq<Finding> := [], [];
    assert ids[0..] == ids && ids[|ids|..] == [];
    BuildEnds(assessments, Assessments(tc, executions, verified, ids));
    BuildEnds(findings, Findings(lib, tc, executions, verified, ids));
    for i := 0 to |ids|
      invariant Builds(assessments, Assessments(tc, executions, verified, ids[i..]),
        Assessments(tc, executions, verified, ids))
      invariant Builds(findings, Findings(lib, tc, executions, verified, ids[i..]),
        Findings(lib, tc, executions, verified, ids))
    {
      hide Builds, Conclusion, Demoted, AssessmentFinding, Evaluate;
      Tail(ids, i);
      var a, f := ConcludeOne(lib, tc, executions, verified, ids[i]);
      BuildStep(assessments, [a], Assessments(tc, executions, verified, ids[i + 1..]),
        Assessments(tc, executions, verified, ids));
      assessments := assessments + [a];
      BuildStep(findings, if f.Some? then [f.value] else [],
                Findings(lib, tc, executions, verified, ids[i + 1..]), Findings(lib, tc, executions, verified, ids));
      if f.Some? {
        findings := findings + [f.value];
      } else {
        assert findings + [] == findings;
      }
    }
    BuildEnds(assessments, Assessments(tc, executions, verified, ids));
    BuildEnds(findings, Findings(lib, tc, executions, verified, ids));
    r := RunResult(ordered, findings, assessments, preflight);
  }

  method ConcludeOne(lib: Library, tc: TestCase, executions: map<string, Execution>,
      verified: map<string, Assessment>, id: Identity)
    returns (a: Assessment, f: Option<Finding>)
    ensures a == FinalAssessment(tc, executions, verified, id)
    ensures f == AccessFinding(lib, tc, executions, verified, id)
  {
    var ea, ex := LastExpected(tc.expected, id.id), ExecutionOf(executions, id.id);
    var isVerified := id.id in verified;
    if isVerified {
      a := verified[id.id];
    } else {
      a := Assess(id.id, ex, ea);
      a := Demoted(tc, id, ex, a);
    }
    if ea.None? || ea.value.decision.Skip? {
      return a, None;
    }
    if isVerified || |ea.value.assertions| > 0 {
      f := AssessmentFinding(lib, tc, id, ex, ea.value, a);
    } else {
      f := EvaluateResponse(lib, tc, id, ex, ea.value.decision);
    }
  }

  method RunCase<S>(exec: Executor<S>, tc: TestCase) returns (r: RunOutcome)
    modifies exec
    ensures (exec.Snapshot(), r) == Run(exec.platform, tc, old(exec.Snapshot()))
  {
    hide Valid, RunSetupFrom, Probe, FirstPass, Conclude, ApplyVars;
    var lib := exec.platform.library;
    var ok := Validate(lib, tc);
    if !ok {
      return Rejected;
    }
    var vars := RunSetup(exec, tc);
    if vars.None? {
      return SetupFailed;
    }
    var bound := ApplyVars(lib, tc, vars.value);
    if bound.None? {
      return SetupFailed;
    }
    var preflight, ready := RunPreflight(exec, bound.value);
    if !ready {
      var unready := Unready(bound.value);
      return Finished(RunResult([], [], unready, preflight));
    }
    var executions, verified := ExecuteIdentities(exec, bound.value);
    verified := GuardVerifiedDenials(bound.value.expected, verified);
    var result := ConcludeAll(lib, bound.value, executions, verified, preflight);
    return Finished(result);
  }

  method Unready(tc: TestCase) returns (assessments: seq<Assessment>)
    ensures assessments == UnreadyAssessments(tc, tc.identities)
  {
    assessments := [];
    var ids := tc.identities;
    assert ids[0..] == ids && ids[|ids|..] == [];
    BuildEnds(assessments, UnreadyAssessments(tc, ids));
    for i := 0 to |ids|
      invariant Builds(assessments, UnreadyAssessments(tc, ids[i..]), UnreadyAssessments(tc, ids))
    {
      hide Builds;
      Tail(ids, i);
      var ea := ExpectedFor(tc.expected, ids[i].id);
      var a := Concluded(ids[i].id, ea, Inconclusive, NoSource, PreflightFailed, []);
      if ea.Some? && ea.value.decision.Skip? {
        a := a.(decision := Skipped, reason := ExplicitSkip);
      }
      if ea.None? {
        a := a.(decision := Skipped, reason := NoExpectation);
      }
      BuildStep(assessments, [a], UnreadyAssessments(tc, ids[i + 1..]), UnreadyAssessments(tc, ids));
      assessments := assessments + [a];
    }
    BuildEnds(assessments, UnreadyAssessments(tc, ids));
  }
}
