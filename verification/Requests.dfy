/** What a run sends: every request of every finished run against what the case declares, with the
    variables captured so far put into its texts. */
module Requests {
  import opened Basics
  import opened Json
  import opened Model
  import opened Server
  import opened Substitution
  import opened Verify
  import opened Validation
  import opened Setup
  import opened Engine
  import opened Attempts
  import opened Order
  import opened Runs
  import opened RunTheorems
  import opened RunResults

  // ----- Declared texts and what is sent for them -----

  ghost predicate FilledMap(declared: map<string, string>, vars: map<string, string>, sent: map<string, string>) {
    sent.Keys == declared.Keys && forall k :: k in declared ==> Filled(declared[k], vars, sent[k])
  }

  /** Address, headers and query with every hole filled, and the body as the document substituter fills it. */
  ghost predicate FilledRequest(lib: Library, declared: Request, vars: map<string, string>, sent: Request) {
    && sent.verb == declared.verb && Filled(declared.url, vars, sent.url)
    && FilledMap(declared.headers, vars, sent.headers) && FilledMap(declared.query, vars, sent.query)
    && (if declared.body.Absent? then sent.body.Absent? else lib.substituteBody(declared.body, vars) == Some(sent.body))
  }

  /** Where nothing was captured a case is run as it is written, holes included. */
  ghost predicate BoundRequest(lib: Library, declared: Request, vars: map<string, string>, sent: Request) {
    if vars == map[] then sent == declared else FilledRequest(lib, declared, vars, sent)
  }

  /** The declared identity, with every hole of its credential filled. */
  ghost predicate BoundActor(declared: Identity, vars: map<string, string>, actor: Identity) {
    var value := actor.credential.value;
    && actor == declared.(credential := declared.credential.(value := value))
    && if vars == map[] then value == declared.credential.value else Filled(declared.credential.value, vars, value)
  }

  /** Exactly the names captured by the first k steps, each with what the last of them to capture it read. */
  ghost predicate Knows<S>(lib: Library, tc: TestCase, t: seq<Event<S>>, k: nat, vars: map<string, string>)
    requires k <= |tc.setup| && k <= |t|
  {
    && (forall name :: name in vars <==> exists j :: 0 <= j < k && name in tc.setup[j].capture)
    && forall j, name :: 0 <= j < k && LastCapture(tc, j, k, name) ==>
         name in vars && CapturedAt(lib, j, t[j].execution.body, tc.setup[j].capture[name], name) == Some(vars[name])
  }

  /** Of the first k steps, step j is the last to capture under this name. */
  ghost predicate LastCapture(tc: TestCase, j: nat, k: nat, name: string)
    requires j < k <= |tc.setup|
  {
    name in tc.setup[j].capture && forall m :: j < m < k ==> name !in tc.setup[m].capture
  }

  /** A setup request comes from the identity it names, as declared, or from nobody in particular. */
  ghost predicate SetupAs<S>(lib: Library, tc: TestCase, k: nat, e: Event<S>, vars: map<string, string>)
    requires k < |tc.setup|
  {
    var step, actor := tc.setup[k], e.call.actor;
    && e.call.phase.SetupPhase? && FilledRequest(lib, step.request, vars, e.call.request)
    && (step.actor == "" ==> actor.credential.SendsNoAuth() && actor.preflight.None?)
    && (step.actor != "" ==> exists i :: 0 <= i < |tc.identities| && tc.identities[i].id == step.actor
                                         && actor == tc.identities[i])
  }

  ghost predicate IsBound(tc: TestCase, vars: map<string, string>, actor: Identity) {
    exists i :: 0 <= i < |tc.identities| && BoundActor(tc.identities[i], vars, actor)
  }

  /** A verifier reads with GET unless another verb was declared, which is sent in upper case. */
  function ReadVerb(lib: Library, declared: string): string {
    if TrimSpace(declared) == "" then "GET" else lib.upper(TrimSpace(declared))
  }

  ghost predicate ProbeAs(tc: TestCase, c: Call, vars: map<string, string>) {
    exists id: Identity ::
      && id.preflight.Some? && BoundActor(id, vars, c.actor)
      && (id in tc.identities || (tc.verification.Some? && id == tc.verification.value.identity))
      && c.request == Request("GET", id.preflight.value.url, map[], map[], Absent)
  }

  ghost predicate TestAs(lib: Library, tc: TestCase, c: Call, vars: map<string, string>) {
    && IsBound(tc, vars, c.actor)
    && exists plain ::
      && BoundRequest(lib, tc.request, vars, plain)
      && c.request == if tc.corsProbe == "" then plain
                      else plain.(headers := plain.headers["Origin" := tc.corsProbe])
  }

  ghost predicate ReadAs(lib: Library, tc: TestCase, c: Call, vars: map<string, string>) {
    && tc.verification.Some? && BoundActor(tc.verification.value.identity, vars, c.actor)
    && exists plain ::
      && BoundRequest(lib, tc.verification.value.request, vars, plain)
      && c.request == plain.(verb := ReadVerb(lib, plain.verb))
  }

  ghost predicate ResetAs(lib: Library, tc: TestCase, c: Call, vars: map<string, string>) {
    && tc.verification.Some? && tc.verification.value.reset.Some?
    && var reset := tc.verification.value.reset.value;
       && BoundRequest(lib, reset.request, vars, c.request)
       && if exists i :: 0 <= i < |tc.identities| && tc.identities[i].id == reset.actor
          then c.actor.id == reset.actor && IsBound(tc, vars, c.actor)
          else c.actor.id == "verification-reset" && c.actor.credential.SendsNoAuth()
  }

  /** After setup: what each phase sends. */
  ghost predicate SentAs(lib: Library, tc: TestCase, c: Call, vars: map<string, string>) {
    match c.phase
    case SetupPhase => false
    case PreflightPhase => ProbeAs(tc, c, vars)
    case ResourcePhase => TestAs(lib, tc, c, vars)
    case VerificationPhase => ReadAs(lib, tc, c, vars)
    case ResetPhase => ResetAs(lib, tc, c, vars)
  }

  // ----- Filling and binding are what the requests need -----

  lemma MapFilled(m: map<string, string>, vars: map<string, string>)
    requires SubstituteMap(m, vars).Some?
    ensures FilledMap(m, vars, SubstituteMap(m, vars).value)
  {
    hide Substitute, Filled;
    forall k | k in m
      ensures Filled(m[k], vars, SubstituteMap(m, vars).value[k])
    {
      SubstituteExact(m[k], vars, SubstituteMap(m, vars).value[k]);
    }
  }

  lemma RequestFilled(lib: Library, req: Request, vars: map<string, string>)
    requires SubstituteRequest(lib, req, vars).Some?
    ensures FilledRequest(lib, req, vars, SubstituteRequest(lib, req, vars).value)
  {
    hide Substitute, SubstituteMap, Filled, FilledMap;
    SubstituteExact(req.url, vars, Substitute(req.url, vars).value);
    MapFilled(req.headers, vars);
    MapFilled(req.query, vars);
  }

  lemma IdentityFilled(id: Identity, vars: map<string, string>)
    requires vars != map[] && SubstituteIdentity(id, vars).Some?
    ensures BoundActor(id, vars, SubstituteIdentity(id, vars).value)
  {
    hide Substitute, Filled;
    SubstituteExact(id.credential.value, vars, Substitute(id.credential.value, vars).value);
  }

  lemma {:induction false} IdentitiesFilled(ids: seq<Identity>, vars: map<string, string>)
    requires vars != map[] && SubstituteIdentities(ids, vars).Some?
    ensures var bound := SubstituteIdentities(ids, vars).value;
      |bound| == |ids| && forall i :: 0 <= i < |ids| ==> BoundActor(ids[i], vars, bound[i])
  {
    hide SubstituteIdentity, BoundActor;
    if ids != [] {
      IdentityFilled(ids[0], vars);
      IdentitiesFilled(ids[1..], vars);
    }
  }

  /** The bound case is the declared one with the variables put in. */
  ghost predicate BoundCase(lib: Library, tc: TestCase, vars: map<string, string>, b: TestCase) {
    && b.corsProbe == tc.corsProbe && BoundRequest(lib, tc.request, vars, b.request)
    && |b.identities| == |tc.identities|
    && (forall i :: 0 <= i < |tc.identities| ==> BoundActor(tc.identities[i], vars, b.identities[i]))
    && (b.verification.Some? <==> tc.verification.Some?)
    && (tc.verification.Some? ==> BoundVerification(lib, tc.verification.value, vars, b.verification.value))
  }

  ghost predicate BoundVerification(lib: Library, wv: WriteVerification, vars: map<string, string>,
      b: WriteVerification) {
    && BoundRequest(lib, wv.request, vars, b.request) && BoundActor(wv.identity, vars, b.identity)
    && (b.reset.Some? <==> wv.reset.Some?)
    && (wv.reset.Some? ==>
          b.reset.value.actor == wv.reset.value.actor
          && BoundRequest(lib, wv.reset.value.request, vars, b.reset.value.request))
  }

  lemma VerificationFilled(lib: Library, wv: WriteVerification, vars: map<string, string>)
    requires vars != map[] && SubstituteVerification(lib, wv, vars).Some?
    ensures BoundVerification(lib, wv, vars, SubstituteVerification(lib, wv, vars).value)
  {
    hide SubstituteRequest, SubstituteIdentity, FilledRequest, BoundActor;
    RequestFilled(lib, wv.request, vars);
    IdentityFilled(wv.identity, vars);
    if wv.reset.Some? {
      RequestFilled(lib, wv.reset.value.request, vars);
    }
  }

  lemma CaseBound(lib: Library, tc: TestCase, vars: map<string, string>)
    requires ApplyVars(lib, tc, vars).Some?
    ensures BoundCase(lib, tc, vars, ApplyVars(lib, tc, vars).value)
  {
    hide SubstituteRequest, SubstituteIdentities, SubstituteVerification, FilledRequest, Filled;
    if vars != map[] {
      hide BoundVerification, BoundActor;
      RequestFilled(lib, tc.request, vars);
      IdentitiesFilled(tc.identities, vars);
      if tc.verification.Some? {
        VerificationFilled(lib, tc.verification.value, vars);
      }
    }
  }

  // ----- Setup -----

  lemma {:induction false} LastIdentityIs(ids: seq<Identity>, id: string, default: Identity)
    ensures var r := LastIdentity(ids, id, default);
      if exists i :: 0 <= i < |ids| && ids[i].id == id
      then exists i :: 0 <= i < |ids| && ids[i].id == id && r == ids[i] else r == default
    decreases |ids|
  {
    if ids != [] {
      var next := if ids[0].id == id then ids[0] else default;
      LastIdentityIs(ids[1..], id, next);
      var r := LastIdentity(ids, id, default);
      assert forall i :: 0 < i < |ids| ==> ids[i] == ids[1..][i - 1];
      if exists i :: 0 <= i < |ids[1..]| && ids[1..][i].id == id {
        var i :| 0 <= i < |ids[1..]| && ids[1..][i].id == id && r == ids[1..][i];
        assert ids[i + 1].id == id && r == ids[i + 1];
      }
    }
  }

  lemma StepSent<S>(lib: Library, tc: TestCase, k: nat, e: Event<S>, vars: map<string, string>)
    requires k < |tc.setup| && StepCall(lib, tc, k, vars) == Some(e.call)
    ensures SetupAs(lib, tc, k, e, vars)
  {
    hide SubstituteRequest, FilledRequest, LastIdentity, StepLabel;
    var step := tc.setup[k];
    RequestFilled(lib, step.request, vars);
    if step.actor != "" {
      LastIdentityIs(tc.identities, step.actor, tc.identities[0]);
    }
  }

  lemma KnowsNothing<S>(lib: Library, tc: TestCase, t: seq<Event<S>>)
    ensures Knows(lib, tc, t, 0, map[])
  {
  }

  lemma KnowsMore<S>(lib: Library, tc: TestCase, t: seq<Event<S>>, k: nat, vars: map<string, string>,
      next: map<string, string>)
    requires k < |tc.setup| && k < |t| && Knows(lib, tc, t, k, vars)
    requires StepVars(lib, tc.setup[k], k, t[k].execution, vars) == Some(next)
    ensures Knows(lib, tc, t, k + 1, next)
  {
    hide CapturedAt;
    var capture := tc.setup[k].capture;
    forall name
      ensures name in next <==> exists j :: 0 <= j < k + 1 && name in tc.setup[j].capture
    {
      if name in capture {
        assert 0 <= k < k + 1;
      } else if name in vars {
        var j :| 0 <= j < k && name in tc.setup[j].capture;
      }
    }
    forall j, name | 0 <= j < k + 1 && LastCapture(tc, j, k + 1, name)
      ensures name in next
      ensures CapturedAt(lib, j, t[j].execution.body, tc.setup[j].capture[name], name) == Some(next[name])
    {
      if j < k {
        assert name !in capture && LastCapture(tc, j, k, name);
      }
    }
  }

  /** The steps of a finished setup, each with what was known before it. */
  lemma {:induction false} SetupSent<S>(p: Platform<S>, tc: TestCase, t: seq<Event<S>>,
      known: seq<map<string, string>>, k: nat)
    requires StepsDone(p, tc, 0, t, known) && known[0] == map[] && |known| == |tc.setup| + 1 && k <= |tc.setup|
    ensures k <= |t| && Knows(p.library, tc, t, k, known[k])
    ensures k < |tc.setup| ==> SetupAs(p.library, tc, k, t[k], known[k])
    decreases k
  {
    hide Knows, SetupAs, StepVars, StepCall, StepDone;
    if k == 0 {
      KnowsNothing(p.library, tc, t);
    } else {
      SetupSent(p, tc, t, known, k - 1);
      var j := k - 1;
      assert StepVars(p.library, tc.setup[0 + j], 0 + j, t[j].execution, known[j]) == Some(known[j + 1]);
      KnowsMore(p.library, tc, t, k - 1, known[k - 1], known[k]);
    }
    if k < |tc.setup| {
      assert StepCall(p.library, tc, 0 + k, known[k]) == Some(t[k].call);
      StepSent(p.library, tc, k, t[k], known[k]);
    }
  }

  // ----- After setup -----

  lemma ProbeSent<S>(lib: Library, tc: TestCase, vars: map<string, string>, b: TestCase, events: seq<Event<S>>,
      results: seq<PreflightResult>, k: nat)
    requires BoundCase(lib, tc, vars, b) && ProbesOk(Probing(PreflightIdentities(b)), events, results) && k < |events|
    ensures events[k].call.phase.PreflightPhase? && ProbeAs(tc, events[k].call, vars)
  {
    hide Probing, BoundRequest, Filled;
    var ids := PreflightIdentities(b);
    ProbingMembers(ids);
    var id := Probing(ids)[k];
    assert events[k].call == PreflightCall(id) && id in ids && id.preflight.Some?;
    var i :| 0 <= i < |ids| && ids[i] == id;
    if i < |b.identities| {
      assert BoundActor(tc.identities[i], vars, id) && tc.identities[i] in tc.identities;
    } else {
      assert BoundActor(tc.verification.value.identity, vars, id);
    }
  }

  lemma ActorBound(lib: Library, tc: TestCase, vars: map<string, string>, b: TestCase, id: Identity)
    requires BoundCase(lib, tc, vars, b) && id in b.identities
    ensures IsBound(tc, vars, id)
  {
    hide BoundActor, BoundRequest, BoundVerification;
    var i :| 0 <= i < |b.identities| && b.identities[i] == id;
    assert BoundActor(tc.identities[i], vars, b.identities[i]);
  }

  lemma TestSent(lib: Library, tc: TestCase, vars: map<string, string>, b: TestCase, id: Identity)
    requires BoundCase(lib, tc, vars, b) && id in b.identities
    ensures TestAs(lib, tc, Call(ResourcePhase, id, TestRequest(b)), vars)
  {
    hide BoundActor, BoundRequest, BoundVerification, IsBound;
    ActorBound(lib, tc, vars, b, id);
    assert BoundRequest(lib, tc.request, vars, b.request);
  }

  lemma ReadSent(lib: Library, tc: TestCase, vars: map<string, string>, b: TestCase)
    requires BoundCase(lib, tc, vars, b) && tc.verification.Some?
    ensures ReadAs(lib, tc, ReaderCall(lib, b.verification.value), vars)
  {
    hide BoundActor, BoundRequest, TrimSpace;
    var plain := b.verification.value.request;
    assert BoundRequest(lib, tc.verification.value.request, vars, plain);
    assert ReaderCall(lib, b.verification.value).request == plain.(verb := ReadVerb(lib, plain.verb));
  }

  lemma ResetSentAs(lib: Library, tc: TestCase, vars: map<string, string>, b: TestCase)
    requires BoundCase(lib, tc, vars, b) && tc.verification.Some? && tc.verification.value.reset.Some?
    ensures var reset := b.verification.value.reset.value;
      ResetAs(lib, tc, Call(ResetPhase, ResetActor(b, reset), reset.request), vars)
  {
    hide BoundRequest, LastIdentity, IsBound, Filled;
    var reset := b.verification.value.reset.value;
    var nobody := Identity("verification-reset", "", "", Credential(StaticHeader, "", ""), None);
    LastIdentityIs(b.identities, reset.actor, nobody);
    assert forall i :: 0 <= i < |tc.identities| ==> b.identities[i].id == tc.identities[i].id;
    if i :| 0 <= i < |tc.identities| && tc.identities[i].id == reset.actor {
      assert b.identities[i].id == reset.actor;
      ActorBound(lib, tc, vars, b, ResetActor(b, reset));
    }
  }

  lemma BlockSent<S>(p: Platform<S>, tc: TestCase, vars: map<string, string>, b: TestCase, id: Identity,
      block: seq<Event<S>>, j: nat)
    requires BoundCase(p.library, tc, vars, b) && id in b.identities && BlockOk(p, b, id, block) && j < |block|
    ensures SentAs(p.library, tc, block[j].call, vars)
  {
    hide BoundCase, TestAs, ReadAs, ResetAs, TestRequest, ReaderCall, ResetActor, Guarded;
    var lib := p.library;
    TestSent(lib, tc, vars, b, id);
    if IsVerified(b, id.id) {
      var wv := b.verification.value;
      SameDeclarations(lib, tc, vars, b);
      assert block[j].call == AttemptCall(lib, b, wv, id, TestRequest(b), 0 + j);
      ReadSent(lib, tc, vars, b);
      if wv.reset.Some? {
        ResetSentAs(lib, tc, vars, b);
      }
      ReaderPhase(lib, wv);
    }
  }

  lemma ReaderPhase(lib: Library, wv: WriteVerification)
    ensures ReaderCall(lib, wv).phase.VerificationPhase?
  {
  }

  lemma SameDeclarations(lib: Library, tc: TestCase, vars: map<string, string>, b: TestCase)
    requires BoundCase(lib, tc, vars, b) && b.verification.Some?
    ensures tc.verification.Some? && (tc.verification.value.reset.Some? <==> b.verification.value.reset.Some?)
  {
    hide BoundRequest, BoundActor;
  }

  lemma OrderedMember(tc: TestCase, i: nat)
    requires i < |ExecutionOrder(tc)|
    ensures ExecutionOrder(tc)[i] in tc.identities
  {
    var _ := OrderIsPermutation(tc);
    assert ExecutionOrder(tc)[i] in multiset(ExecutionOrder(tc));
    assert ExecutionOrder(tc)[i] in multiset(tc.identities);
  }

  /** What a run of the bound case adds to the trace. */
  lemma BoundSends<S>(p: Platform<S>, tc: TestCase, vars: map<string, string>, b: TestCase, w: World<S>, k: nat)
    requires BoundCase(p.library, tc, vars, b) && Sound(b)
    requires var t := RunBound(p, b, w).0.trace; |w.trace| <= k < |t|
    ensures SentAs(p.library, tc, RunBound(p, b, w).0.trace[k].call, vars)
    ensures w.trace <= RunBound(p, b, w).0.trace
  {
    hide RunBound, BlockOk, ResultFollows, BoundCase, Sound, Answered, Leads, Flatten, ProbesOk, SentAs, ExecutionOrder,
         Probing;
    var t := RunBound(p, b, w).0.trace;
    var probes, blocks := RunShape(p, b, w);
    assert t == w.trace + (probes + Flatten(blocks));
    var n := k - |w.trace|;
    if n < |probes| {
      ProbeCount(Probing(PreflightIdentities(b)), probes, RunBound(p, b, w).1.preflight);
      ProbeSent(p.library, tc, vars, b, probes, RunBound(p, b, w).1.preflight, n);
      assert SentAs(p.library, tc, probes[n].call, vars) by { ProbeIsSent(p.library, tc, probes[n].call, vars); }
    } else {
      NothingFlattens<Event<S>>();
      var i, j := Locate(blocks, n - |probes|);
      FlattenAt(blocks, i, j);
      OrderedMember(b, i);
      BlockSent(p, tc, vars, b, ExecutionOrder(b)[i], blocks[i], j);
    }
  }

  lemma ProbeCount<S>(ids: seq<Identity>, events: seq<Event<S>>, results: seq<PreflightResult>)
    requires ProbesOk(ids, events, results)
    ensures |events| == |ids|
  {
  }

  lemma ProbeIsSent(lib: Library, tc: TestCase, c: Call, vars: map<string, string>)
    requires c.phase.PreflightPhase? && ProbeAs(tc, c, vars)
    ensures SentAs(lib, tc, c, vars)
  {
    hide ProbeAs;
  }

  /** Main result: in every finished run each setup step sends its declared request with the variables
      captured before it, and every later request is a declared one with all captured variables: probes,
      the request under test with the probe origin, verifier reads with their verb, and resets, each
      from the identity it belongs to. */
  lemma RunSends<S>(p: Platform<S>, tc: TestCase, s: S, cancelled: bool) returns (vars: seq<map<string, string>>)
    requires Run(p, tc, World(s, cancelled, [])).1.Finished?
    ensures var t, n := Run(p, tc, World(s, cancelled, [])).0.trace, |tc.setup|;
      && |vars| == n + 1 && n <= |t|
      && (forall k :: 0 <= k <= n ==> Knows(p.library, tc, t, k, vars[k]))
      && (forall k :: 0 <= k < n ==> SetupAs(p.library, tc, k, t[k], vars[k]))
      && (forall k :: n <= k < |t| ==> SentAs(p.library, tc, t[k].call, vars[n]))
  {
    hide Valid, RunBound, ApplyVars, RunSetupFrom, Sound, SameDecisions, StepsDone, Knows, SetupAs, SentAs, BoundCase,
         StrictlyAssured, UniqueExpectations;
    var start, lib, n := World(s, cancelled, []), p.library, |tc.setup|;
    var (w, known) := RunSetupFrom(p, tc, 0, start, map[]);
    var events;
    events, vars := SetupReaches(p, tc, 0, start, map[]);
    assert w.trace == events && |vars| == n + 1 by { Reached(p, tc, events, vars); }
    var b := ApplyVars(lib, tc, known.value).value;
    ValidIsSound(lib, tc);
    BoundDecisions(lib, tc, known.value);
    RunResults.BoundCase(b, tc);
    CaseBound(lib, tc, known.value);
    var t := RunBound(p, b, w).0.trace;
    BoundGrows(p, b, w);
    forall k | 0 <= k <= n
      ensures Knows(lib, tc, t, k, vars[k]) && (k < n ==> SetupAs(lib, tc, k, t[k], vars[k]))
    {
      SetupSent(p, tc, events, vars, k);
      KnowsOnly(lib, tc, events, t, k, vars[k]);
    }
    forall k | n <= k < |t|
      ensures SentAs(lib, tc, t[k].call, vars[n])
    {
      BoundSends(p, tc, known.value, b, w, k);
    }
  }

  lemma Reached<S>(p: Platform<S>, tc: TestCase, events: seq<Event<S>>, known: seq<map<string, string>>)
    requires StepsDone(p, tc, 0, events, known)
    ensures 1 <= |known|
  {
  }

  lemma BoundGrows<S>(p: Platform<S>, b: TestCase, w: World<S>)
    requires Sound(b)
    ensures w.trace <= RunBound(p, b, w).0.trace
  {
    hide RunBound, ResultFollows, Sound, BlocksOk, ProbesOk;
    var probes, blocks := RunShape(p, b, w);
  }

  // What was known rests on the setup events alone.
  lemma KnowsOnly<S>(lib: Library, tc: TestCase, events: seq<Event<S>>, t: seq<Event<S>>, k: nat,
      vars: map<string, string>)
    requires events <= t && k <= |events| && k <= |tc.setup| && Knows(lib, tc, events, k, vars)
    ensures Knows(lib, tc, t, k, vars)
  {
    hide CapturedAt;
    assert forall j :: 0 <= j < k ==> events[j] == t[j];
  }

  // ----- What a validated case may send -----

  /** What the declarations allow: unsafe verbs only in a case declared to change state, an unsafe verifier verb
      only where it is allowed, and credentials for a principal check only to the tested origin. */
  ghost predicate Permitted(lib: Library, tc: TestCase, c: Call) {
    && (lib.isUnsafe(c.request.verb) ==> tc.mutating)
    && (c.phase.VerificationPhase? ==>
          && tc.verification.Some? && tc.mutating
          && (lib.isUnsafe(c.request.verb) ==> tc.verification.value.allowUnsafe))
    && (c.phase.ResetPhase? ==> tc.verification.Some? && tc.mutating && !tc.verification.value.strategy.Legacy?)
    && (c.phase.PreflightPhase? ==>
          && lib.httpOrigin(c.request.url).Some? && lib.httpOrigin(c.request.url) == lib.httpOrigin(tc.request.url)
          && !c.actor.credential.SendsNoAuth())
  }

  lemma FinishedIsValid<S>(p: Platform<S>, tc: TestCase, s: S, cancelled: bool)
    requires Run(p, tc, World(s, cancelled, [])).1.Finished?
    ensures Valid(p.library, tc)
  {
    hide Valid, RunBound, ApplyVars, RunSetupFrom;
  }

  lemma SetupPermitted<S>(lib: Library, tc: TestCase, k: nat, e: Event<S>, vars: map<string, string>)
    requires Valid(lib, tc) && k < |tc.setup| && SetupAs(lib, tc, k, e, vars)
    ensures Permitted(lib, tc, e.call)
  {
    hide Filled, FilledMap, ValidExpected, ValidPreflights, ValidVerification, ValidIdentity;
    assert ValidStep(lib, tc, tc.setup[k]);
  }

  lemma ProbePermitted(lib: Library, tc: TestCase, c: Call, vars: map<string, string>)
    requires Valid(lib, tc) && !lib.isUnsafe("GET") && c.phase.PreflightPhase? && ProbeAs(tc, c, vars)
    ensures Permitted(lib, tc, c)
  {
    hide Filled, FilledMap, ValidExpected, ValidSetup, ValidVerification, ValidIdentity, Index;
    var id: Identity :|
      && id.preflight.Some? && BoundActor(id, vars, c.actor)
      && (id in tc.identities || (tc.verification.Some? && id == tc.verification.value.identity))
      && c.request == Request("GET", id.preflight.value.url, map[], map[], Absent);
    var ids := PreflightIdentities(tc);
    assert id in ids;
    var i :| 0 <= i < |ids| && ids[i] == id;
    assert ValidPreflight(lib, tc, ids[i]);
  }

  lemma TestPermitted(lib: Library, tc: TestCase, c: Call, vars: map<string, string>)
    requires Valid(lib, tc) && c.phase.ResourcePhase? && TestAs(lib, tc, c, vars)
    ensures Permitted(lib, tc, c)
  {
    hide IsBound, Filled, FilledMap, ValidExpected, ValidSetup, ValidVerification, ValidPreflights, ValidIdentity;
  }

  lemma ReadPermitted(lib: Library, tc: TestCase, c: Call, vars: map<string, string>)
    requires Valid(lib, tc) && c.phase.VerificationPhase? && ReadAs(lib, tc, c, vars)
    ensures Permitted(lib, tc, c)
  {
    hide BoundActor, Filled, FilledMap, ValidExpected, ValidSetup, ValidPreflights, ValidIdentity, ValidStep, TrimSpace,
         AssessedCount;
  }

  lemma ResetPermitted(lib: Library, tc: TestCase, c: Call, vars: map<string, string>)
    requires Valid(lib, tc) && c.phase.ResetPhase? && ResetAs(lib, tc, c, vars)
    ensures Permitted(lib, tc, c)
  {
    hide IsBound, Filled, FilledMap, ValidExpected, ValidSetup, ValidPreflights, ValidIdentity, AssessedCount;
  }

  lemma SentPermitted(lib: Library, tc: TestCase, c: Call, vars: map<string, string>)
    requires Valid(lib, tc) && !lib.isUnsafe("GET") && SentAs(lib, tc, c, vars)
    ensures Permitted(lib, tc, c)
  {
    hide Valid, Permitted, ProbeAs, TestAs, ReadAs, ResetAs;
    match c.phase {
      case SetupPhase =>
      case PreflightPhase => ProbePermitted(lib, tc, c, vars);
      case ResourcePhase => TestPermitted(lib, tc, c, vars);
      case VerificationPhase => ReadPermitted(lib, tc, c, vars);
      case ResetPhase => ResetPermitted(lib, tc, c, vars);
    }
  }

  /** Main result: whatever was captured, no request of a finished run has an unsafe verb unless the case is
      declared to change state, no verifier read has one unless that is allowed as well, state is only read or
      reset around declared changes, and principal checks carry credentials to the tested origin alone. */
  lemma RunStaysPermitted<S>(p: Platform<S>, tc: TestCase, s: S, cancelled: bool, k: nat)
    requires Run(p, tc, World(s, cancelled, [])).1.Finished? && !p.library.isUnsafe("GET")
    requires k < |Run(p, tc, World(s, cancelled, [])).0.trace|
    ensures Permitted(p.library, tc, Run(p, tc, World(s, cancelled, [])).0.trace[k].call)
  {
    hide Run, Valid, Permitted, Knows, SetupAs, SentAs;
    FinishedIsValid(p, tc, s, cancelled);
    var vars := RunSends(p, tc, s, cancelled);
    var t, n := Run(p, tc, World(s, cancelled, [])).0.trace, |tc.setup|;
    if k < n {
      SetupPermitted(p.library, tc, k, t[k], vars[k]);
    } else {
      SentPermitted(p.library, tc, t[k].call, vars[n]);
    }
  }

  /** Of verifier reads this needs nothing of GET: a run that allows no unsafe ones sends none. */
  lemma ReadsAreSafe<S>(p: Platform<S>, tc: TestCase, s: S, cancelled: bool, k: nat)
    requires Run(p, tc, World(s, cancelled, [])).1.Finished?
    requires tc.verification.Some? && !tc.verification.value.allowUnsafe
    requires var t := Run(p, tc, World(s, cancelled, [])).0.trace; k < |t| && t[k].call.phase.VerificationPhase?
    ensures !p.library.isUnsafe(Run(p, tc, World(s, cancelled, [])).0.trace[k].call.request.verb)
  {
    hide Run, Valid, Knows, ReadAs, FilledRequest, BoundActor;
    FinishedIsValid(p, tc, s, cancelled);
    var vars := RunSends(p, tc, s, cancelled);
    var t, n := Run(p, tc, World(s, cancelled, [])).0.trace, |tc.setup|;
    assert k < n ==> SetupAs(p.library, tc, k, t[k], vars[k]);
    assert k >= n && SentAs(p.library, tc, t[k].call, vars[n]);
    ReadPermitted(p.library, tc, t[k].call, vars[n]);
  }

  lemma PlainOrigins(lib: Library, tc: TestCase, c: Call)
    requires Valid(lib, tc) && SentAs(lib, tc, c, map[])
    ensures c.phase.VerificationPhase? || c.phase.ResetPhase? ==> lib.sameOrigin(c.request.url, tc.request.url)
    ensures c.phase.ResourcePhase? ==> c.request.url == tc.request.url && c.request.verb == tc.request.verb
  {
    hide Filled, FilledMap, IsBound, BoundActor, ProbeAs, ValidExpected, ValidSetup, ValidPreflights, ValidIdentity,
         TrimSpace, AssessedCount;
  }

  /** Where setup captures nothing, the request under test goes where it is declared to, and reads and resets of
      its state stay at its origin. */
  lemma OriginsHold<S>(p: Platform<S>, tc: TestCase, s: S, cancelled: bool, k: nat)
    requires Run(p, tc, World(s, cancelled, [])).1.Finished?
    requires forall i :: 0 <= i < |tc.setup| ==> tc.setup[i].capture == map[]
    requires |tc.setup| <= k < |Run(p, tc, World(s, cancelled, [])).0.trace|
    ensures var c := Run(p, tc, World(s, cancelled, [])).0.trace[k].call;
      && (c.phase.VerificationPhase? || c.phase.ResetPhase? ==> p.library.sameOrigin(c.request.url, tc.request.url))
      && (c.phase.ResourcePhase? ==> c.request.url == tc.request.url && c.request.verb == tc.request.verb)
  {
    hide Run, Valid, SetupAs, SentAs, CapturedAt;
    FinishedIsValid(p, tc, s, cancelled);
    var vars := RunSends(p, tc, s, cancelled);
    var t, n := Run(p, tc, World(s, cancelled, [])).0.trace, |tc.setup|;
    assert Knows(p.library, tc, t, n, vars[n]);
    assert vars[n] == map[];
    PlainOrigins(p.library, tc, t[k].call);
  }
}
