/** When a case lists an identity twice, or its deny condition can be read in two ways: exactly the cases
    for which some honest server makes a finding and an assessment disagree. */
module Disagreement {
  import opened Basics
  import opened Json
  import opened Model
  import opened Server
  import opened Verify
  import opened Validation
  import opened Judgement
  import opened Setup
  import opened Engine
  import opened Attempts
  import opened Order
  import opened Runs
  import opened RunTheorems
  import opened RunResults
  import opened Agreement
  import Dotted
  import Principal

  // ----- Consistent results -----

  /** Every assessment is recorded against one of its identity's entries, an identity has an access
      finding exactly when its assessment contradicts that entry, and the category says which way. */
  ghost predicate Consistent(tc: TestCase, r: RunResult) {
    && |r.assessments| == |tc.identities|
    && forall i :: 0 <= i < |tc.identities| ==>
         var id, a := tc.identities[i].id, r.assessments[i];
         && a.identityId == id
         && (a.expected == DecisionFor(tc, id) || a.expected == LastDecisionFor(tc, id))
         && AgreesAt(tc, r, i)
         && forall f :: f in r.findings && f.identityId == id ==>
           (f.category.AuthorizationMismatch? <==> a.expected == Some(Allow))
  }

  predicate Honest(ex: Execution) {
    ex.errorKind ==> ex.error
  }

  /** The executor never reports an error kind without an error. */
  ghost predicate HonestErrors<S(!new)>(p: Platform<S>) {
    forall s: S, c: Call :: Honest(p.step(s, c).execution)
  }

  /** A finding in agreement with its assessment is worded by the entry it was made against. */
  lemma ExactIsConsistent(lib: Library, tc: TestCase, r: RunResult)
    requires |r.assessments| == |tc.identities|
    requires forall i :: 0 <= i < |tc.identities| ==> ExactAt(lib, tc, r, i) && AgreesAt(tc, r, i)
    ensures Consistent(tc, r)
  {
    hide ExpectedFor, LastExpected, IsVerified, Classify;
    forall i | 0 <= i < |tc.identities|
      ensures var id, a := tc.identities[i].id, r.assessments[i];
        && a.identityId == id
        && (a.expected == DecisionFor(tc, id) || a.expected == LastDecisionFor(tc, id))
        && forall f :: f in r.findings && f.identityId == id ==>
          (f.category.AuthorizationMismatch? <==> a.expected == Some(Allow))
    {
      assert ExactAt(lib, tc, r, i) && AgreesAt(tc, r, i);
    }
  }

  // ----- What a verifier can ever see -----

  /** A response that makes a usable baseline when it is read twice. */
  ghost predicate Baselined(wv: WriteVerification, before: Execution) {
    var first := Interpret(wv, before, false);
    Baseline(wv, first, first)
  }

  ghost predicate ShowsTransition(wv: WriteVerification, before: Execution, after: Execution) {
    var reading := Interpret(wv, after, true);
    reading.reason.NoReason? && Transition(wv, Interpret(wv, before, false).state, reading.state)
  }

  /** Whether any responses at all could lead to this verdict. */
  ghost predicate Possible(wv: WriteVerification, verdict: Verdict) {
    && !wv.environment.Unknown?
    && match verdict
       case Denied => exists before :: Baselined(wv, before)
       case Allowed => exists before, after :: Baselined(wv, before) && ShowsTransition(wv, before, after)
       case _ => true
  }

  /** The verdict that tells a first entry from any other. */
  function Telling(first: Option<AccessDecision>): Verdict {
    if first == Some(Allow) then Denied else Allowed
  }

  /** Verified, listed with differing decisions, and the telling verdict can be reached. */
  ghost predicate Separable(tc: TestCase, id: string) {
    && IsVerified(tc, id)
    && DecisionFor(tc, id) != LastDecisionFor(tc, id)
    && Possible(tc.verification.value, Telling(DecisionFor(tc, id)))
  }

  /** On the status path: some response can be recorded as one outcome and reported on as another. */
  ghost predicate Wavers(text: Dotted.Text, tc: TestCase, id: string) {
    exists ex: Execution, a: Dotted.Order, b: Dotted.Order ::
      !ex.error && !ex.errorKind && TellsApart(tc, id, ClassifyIn(text, tc, ex, a), ClassifyIn(text, tc, ex, b))
  }

  lemma ReadsTwiceWavers(lib: Library, tc: TestCase, id: Identity, ex: Execution)
    requires ReadsTwice(lib, tc, id, ex)
    ensures Wavers(lib.text, tc, id.id)
  {
    hide TellsApart, ClassifyIn;
    assert TellsApart(tc, id.id, ClassifyIn(lib.text, tc, ex, lib.order(Recording(id.id))),
        ClassifyIn(lib.text, tc, ex, lib.order(Reporting(id.id))));
  }

  /** No body leaves the case's deny condition open. */
  ghost predicate DenySettled(text: Dotted.Text, tc: TestCase) {
    tc.denyWhen.Some? ==> !Dotted.CanBeOpen(text, tc.denyWhen.value)
  }

  lemma SettledNeverWavers(text: Dotted.Text, tc: TestCase, id: string)
    requires DenySettled(text, tc)
    ensures !Wavers(text, tc, id)
  {
    hide Dotted.Matches, LastExpected, IsVerified;
    forall ex: Execution, a: Dotted.Order, b: Dotted.Order | !ex.error
      ensures ClassifyIn(text, tc, ex, a) == ClassifyIn(text, tc, ex, b)
    {
      if tc.denyWhen.Some? {
        assert !Dotted.Open(text, ex.body, tc.denyWhen.value);
      }
    }
  }

  /** What a caller can check before the run: without verification, or in an environment that is
      declared unknown, nothing; otherwise first and last entry agree for every assessed identity. */
  ghost predicate Coherent(tc: TestCase) {
    || tc.verification.None?
    || tc.verification.value.environment.Unknown?
    || forall i :: 0 <= i < |tc.identities| && Assessed(tc, tc.identities[i].id) ==>
         DecisionFor(tc, tc.identities[i].id) == LastDecisionFor(tc, tc.identities[i].id)
  }

  lemma CoherentIsInseparable(tc: TestCase, i: nat)
    requires Coherent(tc) && i < |tc.identities|
    ensures !Separable(tc, tc.identities[i].id)
  {
    hide ExpectedFor, LastExpected;
  }

  lemma UniqueIsCoherent(tc: TestCase)
    requires UniqueExpectations(tc)
    ensures Coherent(tc)
    ensures forall id :: DecisionFor(tc, id) == LastDecisionFor(tc, id)
  {
    hide ExpectedFor, LastExpected, UniqueExpectations;
    forall id
      ensures DecisionFor(tc, id) == LastDecisionFor(tc, id)
    {
      UniqueLookup(tc, id);
    }
  }

  // ----- No server can separate the entries of an inseparable case -----

  lemma ShownIsPossible<S>(wv: WriteVerification, block: seq<Event<S>>, k: nat)
    ensures ShowsEffect(wv, block, k) ==> Possible(wv, Allowed) && Possible(wv, Denied)
    ensures ShowsNoEffect(wv, block, k) ==> Possible(wv, Denied)
  {
    hide Interpret, Transition;
    if Observes(wv, block, k) {
      OwnBaseline(wv, block[k - 2].execution, block[k - 1].execution);
      if ShowsEffect(wv, block, k) {
        assert ShowsTransition(wv, block[k - 2].execution, block[k + 1].execution);
      }
    }
  }

  lemma OwnBaseline(wv: WriteVerification, first: Execution, again: Execution)
    requires Baseline(wv, Interpret(wv, first, false), Interpret(wv, again, false))
    ensures Baselined(wv, first)
  {
    hide Interpret;
  }

  lemma FinalIsPossible<S>(p: Platform<S>, tc: TestCase, pass: Pass<S>, id: Identity, block: seq<Event<S>>)
    requires BlockOk(p, tc, id, block) && Recorded(p, tc, id, block, pass) && IsVerified(tc, id.id)
    requires id.id in pass.verified
    ensures var d := FinalAssessment(tc, pass.executions, GuardedDenials(tc.expected, pass.verified), id).decision;
      && (d.Allowed? ==> Possible(tc.verification.value, Allowed) && Possible(tc.verification.value, Denied))
      && (d.Denied? ==> Possible(tc.verification.value, Denied))
  {
    hide BlockOk, Recorded, FinalAssessment, GuardedDenials, BlockVerdict, ShowsEffect, ShowsNoEffect, Possible;
    FinalVerdict(p, tc, pass, id, block);
    BlockEvidence(p, tc, id, block);
    ShownIsPossible(tc.verification.value, block, ResetCount(tc.verification.value) + 2);
  }

  /** The block of any identity of the case. */
  ghost predicate AllRecorded<S>(p: Platform<S>, tc: TestCase, pass: Pass<S>, blocks: seq<seq<Event<S>>>) {
    && BlocksOk(p, tc, ExecutionOrder(tc), blocks)
    && (forall i :: 0 <= i < |blocks| ==> Recorded(p, tc, ExecutionOrder(tc)[i], blocks[i], pass))
    && (forall x :: x in pass.verified <==> Mentions(ExecutionOrder(tc), x) && IsVerified(tc, x))
  }

  lemma SplitNeedsTelling<S>(p: Platform<S>, tc: TestCase, pass: Pass<S>, blocks: seq<seq<Event<S>>>, i: nat)
    requires Sound(tc) && AllRecorded(p, tc, pass, blocks) && i < |tc.identities|
    requires var a := FinalAssessment(tc, pass.executions, GuardedDenials(tc.expected, pass.verified),
      tc.identities[i]);
      SplitBy(tc, tc.identities[i].id, a.decision) && a.expected == DecisionFor(tc, tc.identities[i].id)
    ensures Separable(tc, tc.identities[i].id)
  {
    hide BlockOk, Recorded, FinalAssessment, GuardedDenials, Mentions, Possible, ExpectedFor, LastExpected, IsVerified;
    var id := tc.identities[i];
    var k := PassRecords(p, tc, pass, blocks, id);
    IsMentioned(ExecutionOrder(tc), k);
    FinalIsPossible(p, tc, pass, id, blocks[k]);
    var a := FinalAssessment(tc, pass.executions, GuardedDenials(tc.expected, pass.verified), id);
    VerifiedDecision(tc, id.id);
    if a.decision.Denied? && a.expected == Some(Deny) {
      FinalVerdict(p, tc, pass, id, blocks[k]);
      var n, m := ControlOfDenial(p, tc, pass, blocks, id);
      var j := PassRecords(p, tc, pass, blocks, tc.identities[m]);
      IsMentioned(ExecutionOrder(tc), j);
      FinalVerdict(p, tc, pass, tc.identities[m], blocks[j]);
      FinalIsPossible(p, tc, pass, tc.identities[m], blocks[j]);
    }
  }

  lemma VerifiedDecision(tc: TestCase, id: string)
    requires IsVerified(tc, id)
    ensures DecisionFor(tc, id) == Some(Allow) || DecisionFor(tc, id) == Some(Deny)
  {
  }

  lemma HonestExecution<S(!new)>(p: Platform<S>, tc: TestCase, id: Identity, block: seq<Event<S>>, pass: Pass<S>)
    requires HonestErrors(p) && Answered(p, block) && BlockOk(p, tc, id, block) && Recorded(p, tc, id, block, pass)
    ensures Honest(ExecutionOf(pass.executions, id.id))
  {
    var raw := if IsVerified(tc, id.id) then BlockExecution(tc.verification.value, block) else block[0].execution;
    if raw != WITHHELD {
      var k := if IsVerified(tc, id.id) then ResetCount(tc.verification.value) + 2 else 0;
      assert AnswersRequest(p, block[k]);
      assert block[k].execution == p.step(block[k].before, block[k].call).execution;
    }
  }

  lemma ShapeAnswered<S>(p: Platform<S>, tc: TestCase, w: World<S>, probes: seq<Event<S>>, blocks: seq<seq<Event<S>>>)
    requires Shape(p, tc, w, RunBound(p, tc, w).0, RunBound(p, tc, w).1, probes, blocks)
    ensures Answered(p, Flatten(blocks))
  {
    hide RunBound;
    var t := probes + Flatten(blocks);
    forall j | 0 <= j < |Flatten(blocks)|
      ensures AnswersRequest(p, Flatten(blocks)[j])
    {
      assert t[|probes| + j] == Flatten(blocks)[j];
    }
  }

  /** On an honest server no recorded response has an error kind without an error. */
  lemma HonestAt<S(!new)>(p: Platform<S>, tc: TestCase, w: World<S>, i: nat)
    requires Sound(tc) && HonestErrors(p) && i < |tc.identities| && AllPassed(RunBound(p, tc, w).1.preflight)
    ensures var r := RunBound(p, tc, w).1; i < |r.executions| && Honest(r.executions[i])
  {
    hide Extends, FirstPass, FinalAssessment, GuardedDenials, BlockOk, SharesBaseline, Recorded, Assessments, Findings,
         Executions, Mentions, ProbesOk, HonestErrors;
    var probes, blocks := RunShape(p, tc, w);
    var pass := FirstPass(p, tc, Probe(p, PreflightIdentities(tc), w).0);
    var k := PassRecords(p, tc, pass, blocks, tc.identities[i]);
    ShapeAnswered(p, tc, w, probes, blocks);
    BlockAnswered(p, blocks, k);
    HonestExecution(p, tc, tc.identities[i], blocks[k], pass);
    ExecutionsAt(pass.executions, tc.identities);
  }

  /** On an honest server, findings and assessments of an inseparable case agree in every run. */
  lemma InseparableAgrees<S(!new)>(p: Platform<S>, tc: TestCase, w: World<S>)
    requires Sound(tc) && HonestErrors(p)
    requires forall i :: 0 <= i < |tc.identities| ==>
      !Separable(tc, tc.identities[i].id) && !Wavers(p.library.text, tc, tc.identities[i].id)
    ensures Consistent(tc, RunBound(p, tc, w).1)
  {
    hide Extends, FirstPass, ExactAt, Consistent, FinalAssessment, GuardedDenials, BlockOk, SharesBaseline, Recorded,
         UnreadyAssessments, Assessments, Findings, Executions, Mentions, ProbesOk, AgreesAt, Separable, HonestErrors,
         Wavers;
    var r := RunBound(p, tc, w).1;
    if AllPassed(r.preflight) {
      forall i | 0 <= i < |tc.identities|
        ensures ExactAt(p.library, tc, r, i) && |r.assessments| == |tc.identities| && AgreesAt(tc, r, i)
      {
        RunAgreesExactly(p, tc, w, i);
        ExactLengths(p.library, tc, r, i);
        InseparableAt(p, tc, w, i);
      }
      if tc.identities == [] {
        NoAssessments(p, tc, w);
      } else {
        assert ExactAt(p.library, tc, r, 0);
        ExactLengths(p.library, tc, r, 0);
      }
      ExactIsConsistent(p.library, tc, r);
    } else {
      UnreadyIsConsistent(p, tc, w);
    }
  }

  lemma ExactLengths(lib: Library, tc: TestCase, r: RunResult, i: nat)
    requires i < |tc.identities| && ExactAt(lib, tc, r, i)
    ensures |r.assessments| == |tc.identities|
  {
  }

  lemma NoAssessments<S>(p: Platform<S>, tc: TestCase, w: World<S>)
    requires tc.identities == [] && AllPassed(RunBound(p, tc, w).1.preflight)
    ensures RunBound(p, tc, w).1.assessments == []
  {
    hide FirstPass, GuardedDenials;
  }

  lemma UnreadyIsConsistent<S>(p: Platform<S>, tc: TestCase, w: World<S>)
    requires Sound(tc) && !AllPassed(RunBound(p, tc, w).1.preflight)
    ensures Consistent(tc, RunBound(p, tc, w).1)
  {
    hide FirstPass, ExpectedFor, LastExpected, IsVerified;
    var r := RunBound(p, tc, w).1;
    UnreadyAt(tc, tc.identities);
    forall i | 0 <= i < |tc.identities|
      ensures r.assessments[i].identityId == tc.identities[i].id
      ensures r.assessments[i].expected == DecisionFor(tc, tc.identities[i].id) && AgreesAt(tc, r, i)
    {
      RunAgreesExactly(p, tc, w, i);
    }
  }

  lemma InseparableAt<S(!new)>(p: Platform<S>, tc: TestCase, w: World<S>, i: nat)
    requires Sound(tc) && HonestErrors(p) && i < |tc.identities| && !Separable(tc, tc.identities[i].id)
    requires !Wavers(p.library.text, tc, tc.identities[i].id)
    requires AllPassed(RunBound(p, tc, w).1.preflight) && ExactAt(p.library, tc, RunBound(p, tc, w).1, i)
    ensures AgreesAt(tc, RunBound(p, tc, w).1, i)
  {
    hide Extends, FirstPass, FinalAssessment, GuardedDenials, BlockOk, SharesBaseline, Recorded, Assessments, Findings,
         Executions, Mentions, ProbesOk, AgreesAt, Separable, HonestErrors, Classify, SplitBy, ExpectedFor,
         LastExpected, IsVerified, Wavers, ReadsTwice;
    var r := RunBound(p, tc, w).1;
    var probes, blocks := RunShape(p, tc, w);
    var pass := FirstPass(p, tc, Probe(p, PreflightIdentities(tc), w).0);
    var verified := GuardedDenials(tc.expected, pass.verified);
    var id := tc.identities[i];
    HonestAt(p, tc, w, i);
    AssessmentsAt(tc, pass.executions, verified, tc.identities);
    if ReadsTwice(p.library, tc, id, r.executions[i]) {
      ReadsTwiceWavers(p.library, tc, id, r.executions[i]);
    }
    if SplitBy(tc, id.id, r.assessments[i].decision) {
      SplitIsVerified(tc, id.id, r.assessments[i].decision);
      SplitNeedsTelling(p, tc, pass, blocks, i);
    }
  }

  lemma SplitIsVerified(tc: TestCase, id: string, verdict: Verdict)
    requires SplitBy(tc, id, verdict)
    ensures IsVerified(tc, id)
  {
  }

  /** Main result: on an honest server the findings of every run are consistent with its assessments,
      provided that no body leaves the deny condition open, and that with verification in a known
      environment no assessed identity's first and last entry differ. */
  lemma FindingsAgree<S(!new)>(p: Platform<S>, tc: TestCase, w: World<S>)
    requires Sound(tc) && Coherent(tc) && DenySettled(p.library.text, tc) && HonestErrors(p)
    ensures Consistent(tc, RunBound(p, tc, w).1)
  {
    hide Separable, Coherent, RunBound, Consistent, HonestErrors, Sound, Wavers, DenySettled;
    forall i | 0 <= i < |tc.identities|
      ensures !Separable(tc, tc.identities[i].id) && !Wavers(p.library.text, tc, tc.identities[i].id)
    {
      CoherentIsInseparable(tc, i);
      SettledNeverWavers(p.library.text, tc, tc.identities[i].id);
    }
    InseparableAgrees(p, tc, w);
  }

  // ----- A server that separates the entries of a separable case -----

  const FINE := Execution(200, Absent, false, false, None)

  /** Some response lets this identity's preflight pass, if it declares one. */
  ghost predicate CanPass(id: Identity) {
    id.preflight.Some? ==>
      && id.preflight.value.expectedStatus != 401 && id.preflight.value.expectedStatus != 403
      && Principal.Satisfiable(id.preflight.value.fields)
  }

  /** Every declared preflight can pass. */
  ghost predicate Confirmable(tc: TestCase) {
    forall i :: 0 <= i < |PreflightIdentities(tc)| ==> CanPass(PreflightIdentities(tc)[i])
  }

  ghost function ProbeAnswer(id: Identity): Execution {
    if id.preflight.Some? && CanPass(id) then
      FINE.(status := id.preflight.value.expectedStatus, body := Principal.SomeBody(id.preflight.value.fields))
    else FINE
  }

  /** What a staged server answers: each setup step in turn, every resource request alike, and the
      verifier with one response before the target's write and another after it. */
  datatype Script = Script(library: Library, answers: seq<Execution>, response: Execution, target: string,
      effect: bool, before: Execution, after: Execution)

  /** How many setup steps were answered, and whether the target has written. */
  datatype Stage = Stage(asked: nat, written: bool)

  ghost function StagedStep(sc: Script, s: Stage, c: Call): Reply<Stage> {
    match c.phase
    case SetupPhase =>
      Reply(s.(asked := s.asked + 1), if s.asked < |sc.answers| then sc.answers[s.asked] else FINE, false)
    case PreflightPhase => Reply(s, ProbeAnswer(c.actor), false)
    case ResourcePhase => Reply(s.(written := s.written || (sc.effect && c.actor.id == sc.target)), sc.response, false)
    case VerificationPhase => Reply(s, if s.written then sc.after else sc.before, false)
    case ResetPhase => Reply(s, FINE, false)
  }

  ghost function Staged(sc: Script): Platform<Stage> {
    Platform((s, c) => StagedStep(sc, s, c), sc.library)
  }

  lemma StagedLibrary(sc: Script)
    ensures Staged(sc).library == sc.library
  {
  }

  ghost predicate Quiet(w: World<Stage>) {
    !w.state.written && !w.cancelled
  }

  lemma {:induction false} ProbesPass(sc: Script, ids: seq<Identity>, w: World<Stage>)
    requires Quiet(w) && forall i :: 0 <= i < |ids| ==> CanPass(ids[i])
    ensures var (v, results) := Probe(Staged(sc), ids, w); Quiet(v) && AllPassed(results)
  {
    if ids != [] {
      if ids[0].preflight.None? {
        ProbesPass(sc, ids[1..], w);
      } else {
        var (v, ex) := Send(Staged(sc), w, PreflightCall(ids[0]));
        ProbesPass(sc, ids[1..], v);
      }
    }
  }

  ghost predicate SessionFits(wv: WriteVerification, before: Execution, session: Option<Observed>) {
    session.Some? ==> Same(session.value, Interpret(wv, before, false).state)
  }

  lemma QuietObserve(sc: Script, wv: WriteVerification, w: World<Stage>, reread: bool)
    requires !w.cancelled
    ensures var (v, r) := Observe(Staged(sc), wv, w, reread);
      v.state == w.state && !v.cancelled && r == Interpret(wv, if w.state.written then sc.after else sc.before, reread)
  {
    hide Interpret;
  }

  /** A second look at a baseline after the write reads as it did before. */
  lemma RereadSame(wv: WriteVerification, before: Execution)
    requires SoundStrategy(wv) && Baselined(wv, before)
    ensures Interpret(wv, before, true) == Interpret(wv, before, false)
  {
    hide Pointer.PointerValueOf, Decode;
  }

  /** On the staged server an attempt gets through to its write. */
  lemma StagedAttempt(sc: Script, tc: TestCase, wv: WriteVerification, id: Identity, req: Request, ea: ExpectedAccess,
      w: World<Stage>, session: Option<Observed>)
    requires Quiet(w) && sc.response == FINE
    requires Baselined(wv, sc.before) && SessionFits(wv, sc.before, session)
    ensures var a := VerifiedExecute(Staged(sc), tc, wv, id, req, ea, w, session);
      var st, changed := Interpret(wv, sc.before, false).state, sc.effect && id.id == sc.target;
      && a.world.state.written == changed && !a.world.cancelled
      && SessionFits(wv, sc.before, a.session)
      && a.execution == FINE
      && a.assessment.expected == Some(ea.decision)
      && a.assessment.decision == Judge(wv, st, FINE, Interpret(wv, if changed then sc.after else sc.before, true)).0
  {
    hide Interpret, Judge, Observe;
    var p := Staged(sc);
    var (w1, status, done) := ResetSent(p, tc, wv, w);
    assert done && Quiet(w1);
    QuietObserve(sc, wv, w1, false);
    var (w2, first) := Observe(p, wv, w1, false);
    QuietObserve(sc, wv, w2, false);
    var (w3, again) := Observe(p, wv, w2, false);
    SameIsEquivalence(first.state, first.state, first.state);
    if session.Some? {
      SameIsEquivalence(session.value, first.state, first.state);
    }
    var (w4, ex) := Send(p, w3, Call(ResourcePhase, id, req));
    QuietObserve(sc, wv, w4, true);
  }

  lemma StagedVerdict(wv: WriteVerification, before: Execution, after: Execution, verdict: Verdict)
    requires SoundStrategy(wv) && !wv.environment.Unknown? && Baselined(wv, before)
    requires verdict.Denied? || (verdict.Allowed? && ShowsTransition(wv, before, after))
    ensures Judge(wv, Interpret(wv, before, false).state, FINE,
      Interpret(wv, if verdict.Allowed? then after else before, true)).0 == verdict
  {
    hide Interpret, Judge, Transition;
    var st := Interpret(wv, before, false).state;
    var reading := Interpret(wv, if verdict.Allowed? then after else before, true);
    RereadSame(wv, before);
    ReadableStates(wv, before, false);
    ReadableStates(wv, if verdict.Allowed? then after else before, true);
    JudgeIsVerdict(wv, st, FINE, reading);
    if verdict.Denied? {
      NoSelfTransition(wv, st);
    }
  }

  lemma NoSelfTransition(wv: WriteVerification, st: Observed)
    requires SoundStrategy(wv) && UsableBaseline(wv, st)
    ensures !Transition(wv, st, st)
  {
  }

  /** The staged server is in the same state as before the target's turn. */
  ghost predicate Waiting(wv: WriteVerification, before: Execution, pass: Pass<Stage>) {
    Quiet(pass.world) && SessionFits(wv, before, pass.session)
  }

  lemma OthersWait(sc: Script, tc: TestCase, id: Identity, pass: Pass<Stage>)
    requires tc.verification.Some? && id.id != sc.target && sc.response == FINE
    requires Baselined(tc.verification.value, sc.before) && Waiting(tc.verification.value, sc.before, pass)
    ensures Waiting(tc.verification.value, sc.before, ExecuteOne(Staged(sc), tc, id, pass))
  {
    hide VerifiedExecute, Judge, Interpret, Baselined;
    if IsVerified(tc, id.id) {
      StagedAttempt(sc, tc, tc.verification.value, id, TestRequest(tc), ExpectedFor(tc.expected, id.id).value,
                    pass.world, pass.session);
    }
  }

  /** The script leads the target to this verdict. */
  ghost predicate Stages(sc: Script, wv: WriteVerification, verdict: Verdict) {
    && SoundStrategy(wv) && !wv.environment.Unknown? && Baselined(wv, sc.before)
    && sc.effect == verdict.Allowed? && sc.response == FINE
    && (verdict.Denied? || (verdict.Allowed? && ShowsTransition(wv, sc.before, sc.after)))
  }

  lemma TargetDecided(sc: Script, tc: TestCase, id: Identity, pass: Pass<Stage>, verdict: Verdict)
    requires IsVerified(tc, id.id) && id.id == sc.target
    requires Stages(sc, tc.verification.value, verdict) && Waiting(tc.verification.value, sc.before, pass)
    requires verdict == Telling(DecisionFor(tc, id.id))
    ensures var next := ExecuteOne(Staged(sc), tc, id, pass);
      && id.id in next.verified && next.verified[id.id].decision == verdict
      && next.verified[id.id].expected == DecisionFor(tc, id.id)
  {
    hide VerifiedExecute, Judge, Interpret, Baselined, Transition;
    var wv := tc.verification.value;
    StagedAttempt(sc, tc, wv, id, TestRequest(tc), ExpectedFor(tc.expected, id.id).value, pass.world, pass.session);
    StagedVerdict(wv, sc.before, sc.after, verdict);
  }

  lemma {:induction false} EntryStays(p: Platform<Stage>, tc: TestCase, order: seq<Identity>, pass: Pass<Stage>,
      id: string)
    requires id in pass.verified && forall i :: 0 <= i < |order| ==> order[i].id != id
    ensures var r := ExecuteAll(p, tc, order, pass); id in r.verified && r.verified[id] == pass.verified[id]
    decreases |order|
  {
    hide VerifiedExecute, Send;
    if order != [] {
      EntryStays(p, tc, order[1..], ExecuteOne(p, tc, order[0], pass), id);
    }
  }

  /** The pass reaches the target waiting, decides it, and keeps what it decided. */
  lemma {:induction false} StagedPass(sc: Script, tc: TestCase, order: seq<Identity>, k: nat, pass: Pass<Stage>,
      verdict: Verdict)
    requires k < |order| && DistinctIdentities(order) && IsVerified(tc, order[k].id) && order[k].id == sc.target
    requires Stages(sc, tc.verification.value, verdict) && Waiting(tc.verification.value, sc.before, pass)
    requires verdict == Telling(DecisionFor(tc, order[k].id))
    ensures var r := ExecuteAll(Staged(sc), tc, order, pass); var id := order[k].id;
      id in r.verified && r.verified[id].decision == verdict && r.verified[id].expected == DecisionFor(tc, id)
    decreases k
  {
    hide ExecuteOne, Baselined, ShowsTransition, Waiting, IsVerified, Staged;
    var p := Staged(sc);
    var next := ExecuteOne(p, tc, order[0], pass);
    assert forall i :: 0 <= i < |order[1..]| ==> order[1..][i] == order[i + 1];
    if k == 0 {
      TargetDecided(sc, tc, order[0], pass, verdict);
      EntryStays(p, tc, order[1..], next, order[0].id);
    } else {
      assert tc.verification.Some? by { VerifiedHasVerification(tc, order[k].id); }
      OthersWait(sc, tc, order[0], pass);
      StagedPass(sc, tc, order[1..], k - 1, next, verdict);
    }
  }

  lemma VerifiedHasVerification(tc: TestCase, id: string)
    requires IsVerified(tc, id)
    ensures tc.verification.Some?
  {
  }

  lemma PlaceInOrder(tc: TestCase, i: nat) returns (k: nat)
    requires i < |tc.identities|
    ensures k < |ExecutionOrder(tc)| && ExecutionOrder(tc)[k] == tc.identities[i]
  {
    var _ := OrderIsPermutation(tc);
    assert tc.identities[i] in multiset(tc.identities) && tc.identities[i] in multiset(ExecutionOrder(tc));
    k :| 0 <= k < |ExecutionOrder(tc)| && ExecutionOrder(tc)[k] == tc.identities[i];
  }

  lemma GuardLeaves(expected: seq<ExpectedAccess>, verified: map<string, Assessment>, id: string)
    requires id in verified && !(verified[id].expected == Some(Deny) && verified[id].decision.Denied?)
    ensures id in GuardedDenials(expected, verified) && GuardedDenials(expected, verified)[id] == verified[id]
  {
    NoUncalibratedDenial(expected, verified);
  }

  lemma TellingSplits(tc: TestCase, id: string)
    requires IsVerified(tc, id) && DecisionFor(tc, id) != LastDecisionFor(tc, id)
    ensures SplitBy(tc, id, Telling(DecisionFor(tc, id)))
  {
    hide ExpectedFor, LastExpected;
    SameNames(tc, id);
    VerifiedDecision(tc, id);
  }

  lemma StagedIsHonest(sc: Script)
    requires Honest(sc.response) && Honest(sc.before) && Honest(sc.after)
    requires forall i :: 0 <= i < |sc.answers| ==> Honest(sc.answers[i])
    ensures HonestErrors(Staged(sc))
  {
  }

  /** The run on the staged server parts the finding from the assessment. */
  lemma StagedRun(sc: Script, tc: TestCase, i: nat, w: World<Stage>)
    requires Sound(tc) && Confirmable(tc) && i < |tc.identities| && Separable(tc, tc.identities[i].id) && Quiet(w)
    requires sc.target == tc.identities[i].id
      && Stages(sc, tc.verification.value, Telling(DecisionFor(tc, tc.identities[i].id)))
    ensures var r := RunBound(Staged(sc), tc, w).1; |r.assessments| == |tc.identities| && !AgreesAt(tc, r, i)
  {
    hide Stages, Possible, IsVerified, ExecuteAll, GuardedDenials, Assessments, Findings, Executions, AgreesAt, SplitBy,
         ReadsPastKind, ReadsTwice, Probe, FinalAssessment, ExpectedFor, LastExpected, Staged;
    var id := tc.identities[i].id;
    var verdict := Telling(DecisionFor(tc, id));
    var p := Staged(sc);
    var r := RunBound(p, tc, w).1;
    ProbesPass(sc, PreflightIdentities(tc), w);
    var (v, results) := Probe(p, PreflightIdentities(tc), w);
    var _ := OrderIsPermutation(tc);
    var k := PlaceInOrder(tc, i);
    VerifiedHasVerification(tc, id);
    VerifiedDecision(tc, id);
    StagedPass(sc, tc, ExecutionOrder(tc), k, Pass(v, None, map[], map[]), verdict);
    var pass := FirstPass(p, tc, v);
    GuardLeaves(tc.expected, pass.verified, id);
    var g := GuardedDenials(tc.expected, pass.verified);
    AssessmentsAt(tc, pass.executions, g, tc.identities);
    VerifiedIsFinal(tc, pass.executions, g, tc.identities[i]);
    RunAgreesExactly(p, tc, w, i);
    TellingSplits(tc, id);
  }

  lemma VerifiedIsFinal(tc: TestCase, executions: map<string, Execution>, verified: map<string, Assessment>,
      id: Identity)
    requires id.id in verified
    ensures FinalAssessment(tc, executions, verified, id) == verified[id.id]
  {
  }

  lemma InconsistentIfParted(tc: TestCase, r: RunResult, i: nat)
    requires i < |tc.identities| == |r.assessments| && !AgreesAt(tc, r, i)
    ensures !Consistent(tc, r)
  {
  }

  /** A separable case disagrees on some honest server, whatever that server answers to setup. */
  lemma SeparableDisagrees(lib: Library, answers: seq<Execution>, tc: TestCase, i: nat) returns (sc: Script)
    requires Sound(tc) && Confirmable(tc) && i < |tc.identities| && Separable(tc, tc.identities[i].id)
    requires forall k :: 0 <= k < |answers| ==> Honest(answers[k])
    ensures HonestErrors(Staged(sc)) && sc.library == lib && sc.answers == answers
    ensures forall w :: Quiet(w) ==> !Consistent(tc, RunBound(Staged(sc), tc, w).1)
  {
    hide Baselined, ShowsTransition, RunBound, Consistent, AgreesAt, IsVerified, HonestErrors, ExpectedFor,
      LastExpected;
    var id := tc.identities[i].id;
    VerifiedHasVerification(tc, id);
    VerifiedDecision(tc, id);
    var wv, verdict := tc.verification.value, Telling(DecisionFor(tc, id));
    var before, after := FINE, FINE;
    if verdict.Allowed? {
      before, after :| Baselined(wv, before) && ShowsTransition(wv, before, after);
    } else {
      before :| Baselined(wv, before);
    }
    UsableIsHonest(wv, before, false);
    if verdict.Allowed? {
      TransitionReads(wv, before, after);
      UsableIsHonest(wv, after, true);
    }
    assert Interpret(wv, before, false).reason.NoReason? by { BaselinedReads(wv, before); }
    PossibleIsKnown(wv, verdict);
    sc := Script(lib, answers, FINE, id, verdict.Allowed?, before, after);
    StagedIsHonest(sc);
    forall w | Quiet(w)
      ensures !Consistent(tc, RunBound(Staged(sc), tc, w).1)
    {
      StagedRun(sc, tc, i, w);
      InconsistentIfParted(tc, RunBound(Staged(sc), tc, w).1, i);
    }
  }

  // ----- A run that reads the deny condition in two ways -----

  /** The same text operations, whatever the order of map iteration. */
  ghost predicate SameText(l: Library, lib: Library) {
    l == lib.(order := l.order)
  }

  /** Both readings of every response, with captures left alone. */
  function TwoReadings(lib: Library, a: Dotted.Order, b: Dotted.Order): Library {
    lib.(order := (o: Occasion) => OrderOn(lib, a, b, o))
  }

  function OrderOn(lib: Library, a: Dotted.Order, b: Dotted.Order, o: Occasion): Dotted.Order {
    match o
    case Recording(_) => a
    case Reporting(_) => b
    case Capturing(_, _) => lib.order(o)
  }

  lemma WaveringRun(sc: Script, tc: TestCase, i: nat, w: World<Stage>)
    requires Sound(tc) && Confirmable(tc) && i < |tc.identities| && Quiet(w)
    requires ReadsTwice(sc.library, tc, tc.identities[i], sc.response)
    ensures var r, id := RunBound(Staged(sc), tc, w).1, tc.identities[i];
      var ex := Reclassified(sc.library, tc, id.id, sc.response);
      && |r.assessments| == |r.executions| == |tc.identities| && !AgreesAt(tc, r, i)
      && r.assessments[i] == Demoted(tc, id, ex, Conclusion(id.id, ex, LastExpected(tc.expected, id.id)))
  {
    hide Extends, FirstPass, FinalAssessment, GuardedDenials, BlockOk, SharesBaseline, Recorded, Assessments, Findings,
         Executions, Mentions, AgreesAt, ReadsTwice, ReadsPastKind, SplitBy, Probe, Staged, Reclassified, Demoted,
         Conclusion, LastExpected, IsVerified;
    var p, id := Staged(sc), tc.identities[i];
    var r := RunBound(p, tc, w).1;
    ProbesPass(sc, PreflightIdentities(tc), w);
    var probes, blocks := RunShape(p, tc, w);
    var pass := FirstPass(p, tc, Probe(p, PreflightIdentities(tc), w).0);
    var k := PassRecords(p, tc, pass, blocks, id);
    ShapeAnswered(p, tc, w, probes, blocks);
    BlockAnswered(p, blocks, k);
    RecordReadsTwice(sc.library, tc, id, sc.response);
    ResponseRecorded(sc, tc, id, blocks[k], pass);
    ExecutionsAt(pass.executions, tc.identities);
    var verified := GuardedDenials(tc.expected, pass.verified);
    AssessmentsAt(tc, pass.executions, verified, tc.identities);
    PassVerifiedAgainst(p, tc, pass, blocks);
    UnverifiedIsFinal(tc, pass.executions, verified, id);
    StagedLibrary(sc);
    RunAgreesExactly(p, tc, w, i);
  }

  lemma UnverifiedIsFinal(tc: TestCase, executions: map<string, Execution>, verified: map<string, Assessment>,
      id: Identity)
    requires id.id !in verified
    ensures var ex := ExecutionOf(executions, id.id);
      FinalAssessment(tc, executions, verified, id)
        == Demoted(tc, id, ex, Conclusion(id.id, ex, LastExpected(tc.expected, id.id)))
  {
  }

  lemma ResponseRecorded(sc: Script, tc: TestCase, id: Identity, block: seq<Event<Stage>>, pass: Pass<Stage>)
    requires Answered(Staged(sc), block) && BlockOk(Staged(sc), tc, id, block)
    requires Recorded(Staged(sc), tc, id, block, pass) && !IsVerified(tc, id.id)
    ensures ExecutionOf(pass.executions, id.id) == Reclassified(sc.library, tc, id.id, sc.response)
  {
    hide Reclassified;
    assert AnswersRequest(Staged(sc), block[0]);
  }

  lemma RecordReadsTwice(lib: Library, tc: TestCase, id: Identity, ex: Execution)
    requires ReadsTwice(lib, tc, id, ex)
    ensures !IsVerified(tc, id.id) && ReadsTwice(lib, tc, id, Reclassified(lib, tc, id.id, ex))
  {
    hide Classify;
    ClassifyIgnoresOutcome(lib, tc, id.id, ex);
  }

  /** A wavering case disagrees on some honest server and for some order of iteration. */
  lemma WaveringDisagrees(lib: Library, answers: seq<Execution>, tc: TestCase, i: nat) returns (sc: Script)
    requires Sound(tc) && Confirmable(tc) && i < |tc.identities| && Wavers(lib.text, tc, tc.identities[i].id)
    requires forall k :: 0 <= k < |answers| ==> Honest(answers[k])
    ensures HonestErrors(Staged(sc)) && SameText(sc.library, lib) && sc.answers == answers
    ensures forall o: Occasion :: o.Capturing? ==> sc.library.order(o) == lib.order(o)
    ensures forall w :: Quiet(w) ==> !Consistent(tc, RunBound(Staged(sc), tc, w).1)
  {
    hide RunBound, Consistent, AgreesAt, IsVerified, HonestErrors, TellsApart, ClassifyIn;
    var id := tc.identities[i];
    var ex: Execution, a: Dotted.Order, b: Dotted.Order :| !ex.error && !ex.errorKind
      && TellsApart(tc, id.id, ClassifyIn(lib.text, tc, ex, a), ClassifyIn(lib.text, tc, ex, b));
    sc := Script(TwoReadings(lib, a, b), answers, ex, "", false, FINE, FINE);
    StagedIsHonest(sc);
    assert ReadsTwice(sc.library, tc, id, ex);
    forall w | Quiet(w)
      ensures !Consistent(tc, RunBound(Staged(sc), tc, w).1)
    {
      WaveringRun(sc, tc, i, w);
      InconsistentIfParted(tc, RunBound(Staged(sc), tc, w).1, i);
    }
  }

  lemma PossibleIsKnown(wv: WriteVerification, verdict: Verdict)
    requires Possible(wv, verdict)
    ensures !wv.environment.Unknown?
  {
  }

  lemma TransitionReads(wv: WriteVerification, before: Execution, after: Execution)
    requires ShowsTransition(wv, before, after)
    ensures Interpret(wv, after, true).reason.NoReason?
  {
  }

  lemma BaselinedReads(wv: WriteVerification, before: Execution)
    requires Baselined(wv, before)
    ensures Interpret(wv, before, false).reason.NoReason?
  {
  }

  lemma UsableIsHonest(wv: WriteVerification, ex: Execution, reread: bool)
    ensures Interpret(wv, ex, reread).reason.NoReason? ==> !ex.error && !ex.errorKind
  {
  }

  lemma DeclaredOnly(id: Identity)
    requires !CanPass(id)
    ensures id.preflight.Some?
  {
  }

  lemma NeverPasses(id: Identity, ex: Execution)
    requires !CanPass(id)
    ensures !ProbeResult(id, ex).passed
  {
    hide Principal.Matches;
  }

  /** A preflight that no response lets pass keeps every run from its resource requests. */
  lemma UnconfirmableIsUnready<S>(p: Platform<S>, tc: TestCase, w: World<S>)
    requires !Confirmable(tc)
    ensures !AllPassed(RunBound(p, tc, w).1.preflight)
  {
    hide RunReady, Extends, CanPass, ProbeResult, Probe, Probing;
    var ids := PreflightIdentities(tc);
    var results := Probe(p, ids, w).1;
    var events := ProbeEvents(p, ids, w);
    ProbingMembers(ids);
    var i :| 0 <= i < |ids| && !CanPass(ids[i]);
    assert ids[i].preflight.Some? by { DeclaredOnly(ids[i]); }
    var k :| 0 <= k < |Probing(ids)| && Probing(ids)[k] == ids[i];
    NeverPasses(ids[i], events[k].execution);
    assert !results[k].passed;
  }

  /** Some server and some order of iteration can part this identity's finding from its assessment. */
  ghost predicate Partable(text: Dotted.Text, tc: TestCase, id: string) {
    Separable(tc, id) || Wavers(text, tc, id)
  }

  lemma PartableDisagrees(lib: Library, answers: seq<Execution>, tc: TestCase, i: nat) returns (sc: Script)
    requires Sound(tc) && Confirmable(tc) && i < |tc.identities| && Partable(lib.text, tc, tc.identities[i].id)
    requires forall k :: 0 <= k < |answers| ==> Honest(answers[k])
    ensures HonestErrors(Staged(sc)) && SameText(sc.library, lib) && sc.answers == answers
    ensures forall o: Occasion :: o.Capturing? ==> sc.library.order(o) == lib.order(o)
    ensures forall w :: Quiet(w) ==> !Consistent(tc, RunBound(Staged(sc), tc, w).1)
  {
    hide RunBound, Consistent, HonestErrors, Separable, Wavers, Sound, Confirmable, Staged;
    if Separable(tc, tc.identities[i].id) {
      sc := SeparableDisagrees(lib, answers, tc, i);
    } else {
      sc := WaveringDisagrees(lib, answers, tc, i);
    }
  }

  /** Main result, the exact condition on a case: findings and assessments agree in every run on every
      honest server, however iteration falls, iff some preflight can never pass or no identity is
      partable. */
  lemma AgreementIff(lib: Library, tc: TestCase)
    requires Sound(tc)
    ensures (forall p: Platform<Stage>, w: World<Stage> ::
               HonestErrors(p) && SameText(p.library, lib) ==> Consistent(tc, RunBound(p, tc, w).1))
      <==> !Confirmable(tc) || forall i :: 0 <= i < |tc.identities| ==> !Partable(lib.text, tc, tc.identities[i].id)
  {
    hide RunBound, Consistent, HonestErrors, Separable, Wavers, Sound, Confirmable, Staged;
    if !Confirmable(tc) {
      forall p: Platform<Stage>, w: World<Stage>
        ensures Consistent(tc, RunBound(p, tc, w).1)
      {
        UnconfirmableIsUnready(p, tc, w);
        UnreadyIsConsistent(p, tc, w);
      }
    } else if i :| 0 <= i < |tc.identities| && Partable(lib.text, tc, tc.identities[i].id) {
      var sc := PartableDisagrees(lib, [], tc, i);
      var p, w := Staged(sc), World(Stage(0, false), false, []);
      assert Quiet(w) && p.library == sc.library by { StagedLibrary(sc); }
      assert !Consistent(tc, RunBound(p, tc, w).1);
    } else {
      forall p: Platform<Stage>, w: World<Stage> | HonestErrors(p) && SameText(p.library, lib)
        ensures Consistent(tc, RunBound(p, tc, w).1)
      {
        InseparableAgrees(p, tc, w);
      }
    }
  }
}
