/** The phases before the request under test: setup steps with their captured
    variables, and identity preflights. */
module Setup {
  import opened Basics
  import opened Decimal
  import opened Json
  import opened Model
  import opened Server
  import opened Substitution
  import opened Verify
  import opened Validation
  import Dotted
  import Principal

  // ----- Filling captured variables into requests -----

  function SubstituteMap(m: map<string, string>, vars: map<string, string>): Option<map<string, string>> {
    if forall k :: k in m ==> Substitute(m[k], vars).Some?
    then Some(map k | k in m :: Substitute(m[k], vars).value)
    else None
  }

  function SubstituteRequest(lib: Library, req: Request, vars: map<string, string>): Option<Request> {
    var url :- Substitute(req.url, vars);
    var headers :- SubstituteMap(req.headers, vars);
    var query :- SubstituteMap(req.query, vars);
    var body :- if req.body.Absent? then Some(Absent) else lib.substituteBody(req.body, vars);
    Some(Request(req.verb, url, headers, query, body))
  }

  function SubstituteIdentity(id: Identity, vars: map<string, string>): Option<Identity> {
    var value :- Substitute(id.credential.value, vars);
    Some(id.(credential := id.credential.(value := value)))
  }

  function SubstituteIdentities(ids: seq<Identity>, vars: map<string, string>): Option<seq<Identity>> {
    if ids == [] then Some([])
    else
      var head :- SubstituteIdentity(ids[0], vars);
      var tail :- SubstituteIdentities(ids[1..], vars);
      Some([head] + tail)
  }

  function SubstituteVerification(lib: Library, wv: WriteVerification,
      vars: map<string, string>): Option<WriteVerification> {
    var request :- SubstituteRequest(lib, wv.request, vars);
    var identity :- SubstituteIdentity(wv.identity, vars);
    if wv.reset.None? then Some(wv.(request := request, identity := identity))
    else
      var reset :- SubstituteRequest(lib, wv.reset.value.request, vars);
      Some(wv.(request := request, identity := identity, reset := Some(wv.reset.value.(request := reset))))
  }

  function SubstituteResource(r: Resource, vars: map<string, string>): Option<Resource> {
    var objectId :- Substitute(r.objectId, vars);
    Some(r.(objectId := objectId))
  }

  /** With no captured variables the case is left exactly as it is written. */
  function ApplyVars(lib: Library, tc: TestCase, vars: map<string, string>): Option<TestCase> {
    if vars == map[] then Some(tc)
    else
      var request :- SubstituteRequest(lib, tc.request, vars);
      var identities :- SubstituteIdentities(tc.identities, vars);
      var verification :-
        if tc.verification.None? then Some(None)
        else var wv :- SubstituteVerification(lib, tc.verification.value, vars); Some(Some(wv));
      var resource :-
        if tc.resource.None? then Some(None)
        else var r :- SubstituteResource(tc.resource.value, vars); Some(Some(r));
      Some(tc.(request := request, identities := identities, verification := verification, resource := resource))
  }

  // ----- Setup steps -----

  function StepLabel(step: SetupStep, i: nat): string {
    if step.name != "" then step.name else "setup[" + NatString(i) + "]"
  }

  /** The declared identity, or one that sends nothing. */
  function StepActor(tc: TestCase, step: SetupStep, i: nat): Option<Identity> {
    if step.actor == "" then Some(Identity("setup:" + StepLabel(step, i), "", "", Credential(StaticHeader, "", ""),
      None))
    else if KnownId(tc.identities, step.actor) then Some(LastIdentity(tc.identities, step.actor, tc.identities[0]))
    else None
  }

  /** What step i reads at the path it captures under this name. */
  ghost function CapturedAt(lib: Library, i: nat, body: Raw, path: string, name: string): Option<string> {
    Dotted.ValueAt(lib.text, body, path, lib.order(Capturing(i, name)))
  }

  /** Every declared capture resolved from the response. */
  ghost function Capture(lib: Library, i: nat, body: Raw, capture: map<string, string>): Option<map<string, string>> {
    if forall name :: name in capture ==> CapturedAt(lib, i, body, capture[name], name).Some?
    then Some(map name | name in capture :: CapturedAt(lib, i, body, capture[name], name).value)
    else None
  }

  ghost function StepVars(lib: Library, step: SetupStep, i: nat, ex: Execution,
      vars: map<string, string>): Option<map<string, string>> {
    if ex.error || ex.status >= 400 then None
    else
      var captured :- Capture(lib, i, ex.body, step.capture);
      Some(vars + captured)
  }

  ghost function StepCall(lib: Library, tc: TestCase, i: nat, vars: map<string, string>): Option<Call>
    requires i < |tc.setup|
  {
    var actor :- StepActor(tc, tc.setup[i], i);
    var req :- SubstituteRequest(lib, tc.setup[i].request, vars);
    Some(Call(SetupPhase, actor, req))
  }

  /** Steps i, i + 1, ... of the setup; the first failure ends the run. */
  ghost function RunSetupFrom<S>(p: Platform<S>, tc: TestCase, i: nat, w: World<S>,
      vars: map<string, string>): (World<S>, Option<map<string, string>>)
    requires i <= |tc.setup|
    decreases |tc.setup| - i
  {
    if i == |tc.setup| then (w, Some(vars))
    else
      var c := StepCall(p.library, tc, i, vars);
      if c.None? then (w, None)
      else
        var (w', ex) := Send(p, w, c.value);
        var vars' := StepVars(p.library, tc.setup[i], i, ex, vars);
        if vars'.None? then (w', None) else RunSetupFrom(p, tc, i + 1, w', vars'.value)
  }

  method RunSetup<S>(exec: Executor<S>, tc: TestCase) returns (vars: Option<map<string, string>>)
    modifies exec
    ensures (exec.Snapshot(), vars) == RunSetupFrom(exec.platform, tc, 0, old(exec.Snapshot()), map[])
  {
    hide Send, Substitute;
    var known: map<string, string> := map[];
    for i := 0 to |tc.setup|
      invariant RunSetupFrom(exec.platform, tc, 0, old(exec.Snapshot()), map[])
             == RunSetupFrom(exec.platform, tc, i, exec.Snapshot(), known)
    {
      var step := tc.setup[i];
      var actor := StepActor(tc, step, i);
      if actor.None? {
        return None;
      }
      var req := SubstituteRequest(exec.platform.library, step.request, known);
      if req.None? {
        return None;
      }
      var ex := exec.Execute(Call(SetupPhase, actor.value, req.value));
      if ex.error {
        return None;
      }
      if ex.status >= 400 {
        return None;
      }
      var captured := CaptureAll(exec.platform.library, i, ex.body, step.capture);
      if captured.None? {
        return None;
      }
      known := known + captured.value;
    }
    return Some(known);
  }

  /** Captures in whatever order the map yields them. */
  method CaptureAll(lib: Library, i: nat, body: Raw, capture: map<string, string>)
    returns (r: Option<map<string, string>>)
    ensures r == Capture(lib, i, body, capture)
  {
    hide Dotted.ValueAt;
    var pending := capture.Keys;
    var vars: map<string, string> := map[];
    while pending != {}
      invariant pending <= capture.Keys && vars.Keys == capture.Keys - pending
      invariant forall k :: k in vars ==> CapturedAt(lib, i, body, capture[k], k) == Some(vars[k])
      decreases pending
    {
      var name :| name in pending;
      pending := pending - {name};
      var value := Dotted.ValueAtPath(lib.text, body, capture[name], lib.order(Capturing(i, name)));
      if value.None? {
        return None;
      }
      vars := vars[name := value.value];
    }
    assert forall k :: k in capture ==> k in vars;
    assert vars == Capture(lib, i, body, capture).value;
    return Some(vars);
  }

  // ----- Captures that depend on the order of iteration -----

  /** No order finds a value at this path. */
  ghost predicate NeverRead(text: Dotted.Text, body: Raw, path: string) {
    forall order: Dotted.Order :: Dotted.ValueAt(text, body, path, order).None?
  }

  ghost function SomeOrder(text: Dotted.Text, body: Raw, path: string): (order: Dotted.Order)
    ensures !NeverRead(text, body, path) ==> Dotted.ValueAt(text, body, path, order).Some?
  {
    if order: Dotted.Order :| Dotted.ValueAt(text, body, path, order).Some? then order else Dotted.ASCENDING
  }

  /** A value is read for every capture, and this one is read in the given order. */
  ghost function Reading(lib: Library, body: Raw, capture: map<string, string>, name: string,
      order: Dotted.Order): Occasion -> Dotted.Order {
    (o: Occasion) =>
      if o.Capturing? && o.name in capture && o.name != name then SomeOrder(lib.text, body, capture[o.name]) else order
  }

  lemma ReadingCaptures(lib: Library, i: nat, body: Raw, capture: map<string, string>, name: string,
      order: Dotted.Order)
    requires name in capture && forall k :: k in capture ==> !NeverRead(lib.text, body, capture[k])
    ensures var r := Capture(lib.(order := Reading(lib, body, capture, name, order)), i, body, capture);
      var value := Dotted.ValueAt(lib.text, body, capture[name], order);
      if value.Some? then r.Some? && r.value[name] == value.value else r.None?
  {
    hide Dotted.ValueAt, NeverRead;
    var l := lib.(order := Reading(lib, body, capture, name, order));
    forall k | k in capture && k != name
      ensures CapturedAt(l, i, body, capture[k], k).Some?
    {
    }
    assert CapturedAt(l, i, body, capture[name], name) == Dotted.ValueAt(lib.text, body, capture[name], order);
  }

  /** Main result: what a step captures is the same for all orders of iteration exactly when every
      captured path has one reading in the body, or some captured path has no value at all. */
  lemma CapturesSteadyIff(lib: Library, i: nat, body: Raw, capture: map<string, string>)
    ensures (forall a: Occasion -> Dotted.Order, b: Occasion -> Dotted.Order ::
               Capture(lib.(order := a), i, body, capture) == Capture(lib.(order := b), i, body, capture))
      <==>
        || (forall name :: name in capture ==> Dotted.ReadsOnce(lib.text, body, capture[name]))
        || exists name :: name in capture && NeverRead(lib.text, body, capture[name])
  {
    hide Dotted.ValueAt;
    if name :| name in capture && NeverRead(lib.text, body, capture[name]) {
      forall a: Occasion -> Dotted.Order
        ensures Capture(lib.(order := a), i, body, capture).None?
      {
        assert CapturedAt(lib.(order := a), i, body, capture[name], name).None?;
      }
    } else if forall name :: name in capture ==> Dotted.ReadsOnce(lib.text, body, capture[name]) {
      forall a: Occasion -> Dotted.Order, b: Occasion -> Dotted.Order
        ensures Capture(lib.(order := a), i, body, capture) == Capture(lib.(order := b), i, body, capture)
      {
        SameReadings(lib, i, body, capture, a, b);
      }
    } else {
      var name :| name in capture && !Dotted.ReadsOnce(lib.text, body, capture[name]);
      var a: Dotted.Order, b: Dotted.Order :|
        Dotted.ValueAt(lib.text, body, capture[name], a) != Dotted.ValueAt(lib.text, body, capture[name], b);
      ReadingCaptures(lib, i, body, capture, name, a);
      ReadingCaptures(lib, i, body, capture, name, b);
      var c, d := Reading(lib, body, capture, name, a), Reading(lib, body, capture, name, b);
      assert Capture(lib.(order := c), i, body, capture) != Capture(lib.(order := d), i, body, capture);
    }
  }

  lemma SameReadings(lib: Library, i: nat, body: Raw, capture: map<string, string>, a: Occasion -> Dotted.Order,
      b: Occasion -> Dotted.Order)
    requires forall name :: name in capture ==> Dotted.ReadsOnce(lib.text, body, capture[name])
    ensures Capture(lib.(order := a), i, body, capture) == Capture(lib.(order := b), i, body, capture)
  {
    hide Dotted.ValueAt;
    var l, m := lib.(order := a), lib.(order := b);
    forall name | name in capture
      ensures CapturedAt(l, i, body, capture[name], name) == CapturedAt(m, i, body, capture[name], name)
    {
      assert Dotted.ReadsOnce(lib.text, body, capture[name]);
    }
    if Capture(l, i, body, capture).Some? {
      assert Capture(l, i, body, capture).value == Capture(m, i, body, capture).value;
    }
  }

  // ----- Identity preflights -----

  function PreflightCall(id: Identity): Call
    requires id.preflight.Some?
  {
    Call(PreflightPhase, id, Request("GET", id.preflight.value.url, map[], map[], Absent))
  }

  function ProbeResult(id: Identity, ex: Execution): PreflightResult
    requires id.preflight.Some?
  {
    var p := id.preflight.value;
    var rejected := ex.status == 401 || ex.status == 403;
    if ex.error || ex.errorKind then PreflightResult(id.id, false, ExecutionError, ex.status)
    else if rejected then PreflightResult(id.id, false, CredentialRejected, ex.status)
    else if ex.status != p.expectedStatus then PreflightResult(id.id, false, UnexpectedStatus, ex.status)
    else if !Principal.Matches(ex.body, p.fields) then PreflightResult(id.id, false, IdentityMismatch, ex.status)
    else PreflightResult(id.id, true, IdentityVerified, ex.status)
  }

  ghost function Probe<S>(p: Platform<S>, ids: seq<Identity>, w: World<S>): (World<S>, seq<PreflightResult>) {
    if ids == [] then (w, [])
    else if ids[0].preflight.None? then Probe(p, ids[1..], w)
    else
      var (w', ex) := Send(p, w, PreflightCall(ids[0]));
      var (w'', rest) := Probe(p, ids[1..], w');
      (w'', [ProbeResult(ids[0], ex)] + rest)
  }

  predicate AllPassed(results: seq<PreflightResult>) {
    forall i :: 0 <= i < |results| ==> results[i].passed
  }

  method RunPreflight<S>(exec: Executor<S>, tc: TestCase) returns (results: seq<PreflightResult>, ready: bool)
    modifies exec
    ensures (exec.Snapshot(), results) == Probe(exec.platform, PreflightIdentities(tc), old(exec.Snapshot()))
    ensures ready == AllPassed(results)
  {
    hide Send, AllPassed, Probe, Probed;
    results, ready := [], true;
    NonePassed();
    var ids := PreflightIdentities(tc);
    assert ids[0..] == ids && ids[|ids|..] == [];
    ProbedEnds(exec.platform, ids, exec.Snapshot(), results);
    for i := 0 to |ids|
      invariant Probed(Probe(exec.platform, ids, old(exec.Snapshot())), results,
        Probe(exec.platform, ids[i..], exec.Snapshot()))
      invariant ready == AllPassed(results)
    {
      ghost var whole := Probe(exec.platform, ids, old(exec.Snapshot()));
      ProbedStep(exec.platform, ids, i, exec.Snapshot(), whole, results);
      if ids[i].preflight.None? {
        continue;
      }
      var p := ids[i].preflight.value;
      var ex := exec.Execute(PreflightCall(ids[i]));
      var r := PreflightResult(ids[i].id, false, UnexpectedStatus, ex.status);
      if ex.error || ex.errorKind {
        r := r.(reason := ExecutionError);
      } else if ex.status == 401 || ex.status == 403 {
        r := r.(reason := CredentialRejected);
      } else if ex.status == p.expectedStatus {
        r := r.(reason := IdentityMismatch);
        var matches := Principal.MatchesPrincipal(ex.body, p.fields);
        if matches {
          r := r.(passed := true, reason := IdentityVerified);
        }
      }
      assert r == ProbeResult(ids[i], ex);
      PassedStep(results, r);
      ready := ready && r.passed;
      results := results + [r];
    }
    ProbedEnds(exec.platform, ids, exec.Snapshot(), results);
  }

  ghost predicate Probed<S>(whole: (World<S>, seq<PreflightResult>), results: seq<PreflightResult>,
      rest: (World<S>, seq<PreflightResult>)) {
    whole.0 == rest.0 && whole.1 == results + rest.1
  }

  lemma ProbedEnds<S>(p: Platform<S>, ids: seq<Identity>, w: World<S>, results: seq<PreflightResult>)
    ensures Probed(Probe(p, ids, w), [], Probe(p, ids, w))
    ensures forall whole :: Probed(whole, results, Probe(p, [], w)) ==> whole == (w, results)
  {
    assert results + [] == results;
    assert [] + Probe(p, ids, w).1 == Probe(p, ids, w).1;
  }

  lemma ProbedStep<S>(p: Platform<S>, ids: seq<Identity>, i: nat, w: World<S>,
      whole: (World<S>, seq<PreflightResult>), results: seq<PreflightResult>)
    requires i < |ids| && Probed(whole, results, Probe(p, ids[i..], w))
    ensures ids[i].preflight.None? ==> Probed(whole, results, Probe(p, ids[i + 1..], w))
    ensures ids[i].preflight.Some? ==>
      var (w', ex) := Send(p, w, PreflightCall(ids[i]));
      Probed(whole, results + [ProbeResult(ids[i], ex)], Probe(p, ids[i + 1..], w'))
  {
    hide Send, ProbeResult;
    assert ids[i..][1..] == ids[i + 1..];
    if ids[i].preflight.Some? {
      var (w', ex) := Send(p, w, PreflightCall(ids[i]));
      Associates(results, [ProbeResult(ids[i], ex)], Probe(p, ids[i + 1..], w').1);
    }
  }

  lemma NonePassed()
    ensures AllPassed([])
  {
  }

  lemma PassedStep(results: seq<PreflightResult>, r: PreflightResult)
    ensures AllPassed(results + [r]) <==> AllPassed(results) && r.passed
  {
    var all := results + [r];
    assert all[|results|] == r;
    assert forall i :: 0 <= i < |results| ==> all[i] == results[i];
  }
}
