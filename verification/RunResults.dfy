/** What the results of a run mean: soundness of verified verdicts, the shared baseline,
    the positive control and strict assurance, and how every run reduces to its bound case. */
module RunResults {
  import opened Basics
  import opened Model
  import opened Server
  import opened Verify
  import opened Validation
  import opened Judgement
  import opened Setup
  import opened Engine
  import opened Attempts
  import opened Order
  import opened Runs
  import opened RunTheorems

  // ----- Result lists by position -----

  lemma {:induction false} AssessmentsAt(tc: TestCase, executions: map<string, Execution>,
      verified: map<string, Assessment>, ids: seq<Identity>)
    ensures var a := Assessments(tc, executions, verified, ids);
      |a| == |ids| && forall i :: 0 <= i < |ids| ==> a[i] == FinalAssessment(tc, executions, verified, ids[i])
  {
    if ids != [] {
      AssessmentsAt(tc, executions, verified, ids[1..]);
    }
  }

  lemma {:induction false} UnreadyAt(tc: TestCase, ids: seq<Identity>)
    ensures var a := UnreadyAssessments(tc, ids);
      |a| == |ids| && forall i :: 0 <= i < |ids| ==> a[i] == UnreadyAssessment(tc, ids[i])
  {
    if ids != [] {
      UnreadyAt(tc, ids[1..]);
    }
  }

  // ----- Recorded blocks -----

  /** What the pass recorded about an identity, whatever its place in the order. */
  lemma PassRecords<S>(p: Platform<S>, tc: TestCase, pass: Pass<S>, blocks: seq<seq<Event<S>>>,
      id: Identity) returns (i: nat)
    requires Sound(tc) && id in tc.identities
    requires BlocksOk(p, tc, ExecutionOrder(tc), blocks)
    requires forall i :: 0 <= i < |blocks| ==> Recorded(p, tc, ExecutionOrder(tc)[i], blocks[i], pass)
    ensures i < |blocks| == |ExecutionOrder(tc)| && ExecutionOrder(tc)[i] == id && BlockOk(p, tc, id, blocks[i])
      && Recorded(p, tc, id, blocks[i], pass)
  {
    hide BlockOk, Recorded;
    var _ := OrderIsPermutation(tc);
    assert id in multiset(tc.identities) && id in multiset(ExecutionOrder(tc));
    i :| 0 <= i < |ExecutionOrder(tc)| && ExecutionOrder(tc)[i] == id;
  }

  lemma BlockAnswered<S>(p: Platform<S>, blocks: seq<seq<Event<S>>>, i: nat)
    requires Answered(p, Flatten(blocks)) && i < |blocks|
    ensures Answered(p, blocks[i])
  {
    forall j | 0 <= j < |blocks[i]|
      ensures AnswersRequest(p, blocks[i][j])
    {
      FlattenAt(blocks, i, j);
    }
  }

  // ----- Verified verdicts -----

  /** Same is an equivalence relation on observed states. */
  lemma SameIsEquivalence(a: Observed, b: Observed, c: Observed)
    ensures Same(a, a)
    ensures Same(a, b) ==> Same(b, a)
    ensures Same(a, b) && Same(b, c) ==> Same(a, c)
  {
  }

  /** The write at position k, between two baseline reads and a readback, all usable. */
  ghost predicate Observes<S>(wv: WriteVerification, t: seq<Event<S>>, k: nat) {
    && 2 <= k < |t| - 1
    && !wv.environment.Unknown? && !t[k + 1].cancelled
    && Baseline(wv, Interpret(wv, t[k - 2].execution, false), Interpret(wv, t[k - 1].execution, false))
    && Interpret(wv, t[k + 1].execution, true).reason.NoReason?
  }

  ghost predicate ShowsEffect<S>(wv: WriteVerification, t: seq<Event<S>>, k: nat) {
    && Observes(wv, t, k)
    && Transition(wv, Interpret(wv, t[k - 2].execution, false).state, Interpret(wv, t[k + 1].execution, true).state)
  }

  ghost predicate ShowsNoEffect<S>(wv: WriteVerification, t: seq<Event<S>>, k: nat) {
    && Observes(wv, t, k)
    && Same(Interpret(wv, t[k + 1].execution, true).state, Interpret(wv, t[k - 2].execution, false).state)
    && !t[k].execution.error && !t[k].execution.errorKind && t[k].execution.status != 202
  }

  lemma FinalVerdict<S>(p: Platform<S>, tc: TestCase, pass: Pass<S>, id: Identity, block: seq<Event<S>>)
    requires BlockOk(p, tc, id, block) && Recorded(p, tc, id, block, pass)
    requires id.id in pass.verified <==> IsVerified(tc, id.id)
    ensures var a := FinalAssessment(tc, pass.executions, GuardedDenials(tc.expected, pass.verified), id);
      && (a.source.ByVerification? <==> IsVerified(tc, id.id))
      && (IsVerified(tc, id.id) ==>
            && (a.decision.Allowed? <==> BlockVerdict(tc.verification.value, block).Allowed?)
            && (a.decision.Denied? ==> BlockVerdict(tc.verification.value, block).Denied?))
  {
    hide BlockOk, Claims, MatchedRules, BlockVerdict, BlockExecution, Reclassified, RejectsCredential;
    NoUncalibratedDenial(tc.expected, pass.verified);
  }

  /** A conclusive block puts its evidence at its write. */
  lemma BlockEvidence<S>(p: Platform<S>, tc: TestCase, id: Identity, block: seq<Event<S>>)
    requires IsVerified(tc, id.id) && BlockOk(p, tc, id, block)
    ensures var wv := tc.verification.value; var k := ResetCount(wv) + 2;
      && (BlockVerdict(wv, block).Allowed? ==> ShowsEffect(wv, block, k))
      && (BlockVerdict(wv, block).Denied? ==> ShowsNoEffect(wv, block, k))
      && (!BlockVerdict(wv, block).Inconclusive? ==> block[k].call == Call(ResourcePhase, id, TestRequest(tc)))
  {
    hide Interpret, Transition, Calls;
    var wv := tc.verification.value;
    if !BlockVerdict(wv, block).Inconclusive? {
      BlockPhases(p, tc, id, block, ResetCount(wv) + 2);
    }
  }

  lemma EvidenceInTrace<S>(wv: WriteVerification, block: seq<Event<S>>, t: seq<Event<S>>, base: nat, k: nat)
    requires base + |block| <= |t| && forall j :: 0 <= j < |block| ==> t[base + j] == block[j]
    ensures ShowsEffect(wv, block, k) ==> ShowsEffect(wv, t, base + k)
    ensures ShowsNoEffect(wv, block, k) ==> ShowsNoEffect(wv, t, base + k)
  {
    hide Interpret, Transition, Baseline;
    if Observes(wv, block, k) {
      assert t[base + k] == block[k] && t[base + (k - 2)] == block[k - 2];
      assert t[base + (k - 1)] == block[k - 1] && t[base + (k + 1)] == block[k + 1];
    }
  }

  lemma BlockBase<S>(p: Platform<S>, tc: TestCase, t: seq<Event<S>>, lead: seq<Event<S>>, blocks: seq<seq<Event<S>>>,
      i: nat) returns (base: nat)
    requires TraceOf(p, tc, t, lead, blocks) && i < |blocks|
    ensures base == |lead| + Start(blocks, i) && base + |blocks[i]| <= |t|
    ensures forall j :: 0 <= j < |blocks[i]| ==> t[base + j] == blocks[i][j]
  {
    hide Flatten, BlocksOk, Start;
    base := |lead| + Start(blocks, i);
    StartFits(blocks, i);
    forall j | 0 <= j < |blocks[i]|
      ensures t[base + j] == blocks[i][j]
    {
      BlockInTrace(p, tc, t, lead, blocks, i, j);
    }
  }

  /** Main result: a verified identity is finally allowed only on the strategy's own transition
      around its request, and denied only on an unchanged readback of a completed write; on a
      server whose reads change nothing, allowed also means the request changed the state. */
  lemma VerdictsHaveEvidence<S(!new)>(p: Platform<S>, tc: TestCase, w: World<S>, j: nat)
    requires Sound(tc) && SetupOnly(w.trace) && j < |tc.identities|
    ensures var (w', r) := RunBound(p, tc, w); var wv := tc.verification;
      && |r.assessments| == |tc.identities|
      && var a := r.assessments[j];
         var mine := Call(ResourcePhase, tc.identities[j], TestRequest(tc));
         && (a.source.ByVerification? ==> IsVerified(tc, tc.identities[j].id))
         && (a.source.ByVerification? && a.decision.Allowed? ==>
               exists k :: 0 <= k < |w'.trace| && w'.trace[k].call == mine && ShowsEffect(wv.value, w'.trace, k)
                 && (QuietReads(p) ==> w'.trace[k].before != w'.trace[k].after))
         && (a.source.ByVerification? && a.decision.Denied? ==>
               exists k :: 0 <= k < |w'.trace| && w'.trace[k].call == mine && ShowsNoEffect(wv.value, w'.trace, k))
  {
    hide GuardedDenials, FirstPass, BlockVerdict, ShowsEffect, ShowsNoEffect, BlockOk, Recorded, FinalAssessment,
         SharesBaseline, Flatten, Answered, Linked;
    var (w', r) := RunBound(p, tc, w);
    var lead, blocks := RunTrace(p, tc, w);
    if AllPassed(r.preflight) {
      var pass := FirstPass(p, tc, Probe(p, PreflightIdentities(tc), w).0);
      AssessmentsAt(tc, pass.executions, GuardedDenials(tc.expected, pass.verified), tc.identities);
      var id := tc.identities[j];
      var i := PassRecords(p, tc, pass, blocks, id);
      assert id.id in pass.verified <==> IsVerified(tc, id.id);
      FinalVerdict(p, tc, pass, id, blocks[i]);
      if IsVerified(tc, id.id) && !BlockVerdict(tc.verification.value, blocks[i]).Inconclusive? {
        VerdictInTrace(p, tc, w'.trace, lead, blocks, i);
      }
    } else {
      UnreadyAt(tc, tc.identities);
    }
  }

  lemma VerdictInTrace<S(!new)>(p: Platform<S>, tc: TestCase, t: seq<Event<S>>, lead: seq<Event<S>>,
      blocks: seq<seq<Event<S>>>, i: nat)
    requires Sound(tc) && TraceOf(p, tc, t, lead, blocks) && i < |blocks| == |ExecutionOrder(tc)|
    requires Answered(p, Flatten(blocks)) && Linked(Flatten(blocks))
    requires IsVerified(tc, ExecutionOrder(tc)[i].id) && !BlockVerdict(tc.verification.value, blocks[i]).Inconclusive?
    ensures var wv := tc.verification.value; var mine := Call(ResourcePhase, ExecutionOrder(tc)[i], TestRequest(tc));
      exists k :: 0 <= k < |t| && t[k].call == mine
        && (BlockVerdict(wv, blocks[i]).Allowed? ==>
          ShowsEffect(wv, t, k) && (QuietReads(p) ==> t[k].before != t[k].after))
        && (BlockVerdict(wv, blocks[i]).Denied? ==> ShowsNoEffect(wv, t, k))
  {
    hide BlockVerdict, ShowsEffect, ShowsNoEffect, BlockOk, QuietReads, Flatten;
    var id, wv := ExecutionOrder(tc)[i], tc.verification.value;
    assert BlockOk(p, tc, id, blocks[i]);
    var base := BlockBase(p, tc, t, lead, blocks, i);
    var at := ResetCount(wv) + 2;
    BlockEvidence(p, tc, id, blocks[i]);
    EvidenceInTrace(wv, blocks[i], t, base, at);
    if BlockVerdict(wv, blocks[i]).Allowed? && QuietReads(p) {
      BlockAnswered(p, blocks, i);
      BlockLinked(blocks, i);
      BlockFacts(p, tc, id, blocks[i]);
      AllowedBlockChanged(p, tc, wv, id, TestRequest(tc), blocks[i]);
    }
    SentIfConclusive(wv, blocks[i]);
    assert t[base + at] == blocks[i][at];
  }

  lemma SentIfConclusive<S>(wv: WriteVerification, block: seq<Event<S>>)
    requires !BlockVerdict(wv, block).Inconclusive?
    ensures |block| > ResetCount(wv) + 2
  {
  }

  lemma BlockFacts<S>(p: Platform<S>, tc: TestCase, id: Identity, block: seq<Event<S>>)
    requires IsVerified(tc, id.id) && BlockOk(p, tc, id, block)
    ensures Calls(p.library, tc, tc.verification.value, id, TestRequest(tc), 0, block)
      && Guarded(tc.verification.value, block)
  {
  }

  lemma BlockLinked<S>(blocks: seq<seq<Event<S>>>, i: nat)
    requires Linked(Flatten(blocks)) && i < |blocks|
    ensures Linked(blocks[i])
  {
    hide Follows, Flatten;
    var t := Flatten(blocks);
    forall j | 0 < j < |blocks[i]|
      ensures Follows(blocks[i][j - 1], blocks[i][j])
    {
      FlattenAt(blocks, i, j);
      FlattenAt(blocks, i, j - 1);
      assert Follows(t[Start(blocks, i) + j - 1], t[Start(blocks, i) + j]);
    }
  }

  // ----- The shared baseline -----

  ghost predicate IsVerifiedWrite<S>(tc: TestCase, e: Event<S>) {
    e.call.phase.ResourcePhase? && IsVerified(tc, e.call.actor.id)
  }

  /** Main result: with a reset declared, every write a run sends starts from the same state. */
  lemma BaselinesAgree<S>(p: Platform<S>, tc: TestCase, w: World<S>)
    requires Sound(tc) && SetupOnly(w.trace)
    ensures var (w', r) := RunBound(p, tc, w); var t := w'.trace;
      tc.verification.Some? && tc.verification.value.reset.Some? ==>
        forall k, m ::
          (0 <= k < |t| && 0 <= m < |t| && IsVerifiedWrite(tc, t[k]) && IsVerifiedWrite(tc, t[m]))
          ==>
          (2 <= k && 2 <= m
           && Same(Interpret(tc.verification.value, t[k - 2].execution, false).state,
                   Interpret(tc.verification.value, t[m - 2].execution, false).state))
  {
    hide RunBound, BlockOk, Recorded, SharesBaseline, Conclude, GuardedDenials, FirstPass, Interpret, Same, Flatten,
         Answered, Linked;
    var (w', r) := RunBound(p, tc, w);
    var t := w'.trace;
    var lead, blocks := RunTrace(p, tc, w);
    if tc.verification.Some? && tc.verification.value.reset.Some? {
      var pass := FirstPass(p, tc, Probe(p, PreflightIdentities(tc), w).0);
      forall k, m | 0 <= k < |t| && 0 <= m < |t| && IsVerifiedWrite(tc, t[k]) && IsVerifiedWrite(tc, t[m])
        ensures 2 <= k && 2 <= m
          && Same(Interpret(tc.verification.value, t[k - 2].execution, false).state,
                  Interpret(tc.verification.value, t[m - 2].execution, false).state)
      {
        var a := BaselineOfWrite(p, tc, t, lead, blocks, pass.session, k);
        var b := BaselineOfWrite(p, tc, t, lead, blocks, pass.session, m);
        SameIsEquivalence(pass.session.value, a, b);
        SameIsEquivalence(a, pass.session.value, b);
        SameIsEquivalence(pass.session.value, a, a);
      }
    }
  }

  lemma BaselineOfWrite<S>(p: Platform<S>, tc: TestCase, t: seq<Event<S>>, lead: seq<Event<S>>,
      blocks: seq<seq<Event<S>>>, session: Option<Observed>, k: nat) returns (before: Observed)
    requires TraceOf(p, tc, t, lead, blocks) && k < |t|
    requires forall i :: 0 <= i < |blocks| ==> SharesBaseline(tc, ExecutionOrder(tc)[i], blocks[i], session)
    requires t[k].call.phase.ResourcePhase? && IsVerified(tc, t[k].call.actor.id) && tc.verification.value.reset.Some?
    ensures 2 <= k && before == Interpret(tc.verification.value, t[k - 2].execution, false).state
    ensures session.Some? && Same(session.value, before)
  {
    hide BlockOk, Interpret, Same, Flatten;
    var i, j := LocateEvent(p, tc, t, lead, blocks, k);
    BlockPhases(p, tc, ExecutionOrder(tc)[i], blocks[i], j);
    BlockInTrace(p, tc, t, lead, blocks, i, j - 2);
    before := FirstReading(tc.verification.value, blocks[i]).state;
    assert SharesBaseline(tc, ExecutionOrder(tc)[i], blocks[i], session);
  }

  // ----- The positive control -----

  /** Main result: a verified denial of a deny-expected identity only survives in a run where
      some allow-expected identity's write was verified. */
  lemma DenialsAreCalibrated<S>(p: Platform<S>, tc: TestCase, w: World<S>, j: nat)
    requires Sound(tc) && SetupOnly(w.trace) && j < |tc.identities|
    ensures var r := RunBound(p, tc, w).1;
      && |r.assessments| == |tc.identities|
      && var a := r.assessments[j];
         (a.source.ByVerification? && a.expected == Some(Deny) && a.decision.Denied? ==>
            exists i, k :: 0 <= i < |tc.expected| && 0 <= k < |tc.identities|
              && tc.expected[i].decision.Allow? && tc.expected[i].identityId == tc.identities[k].id
              && r.assessments[k].source.ByVerification? && r.assessments[k].decision.Allowed?)
  {
    hide BlockOk, Recorded, SharesBaseline, FirstPass, Flatten, FinalAssessment, GuardedDenials, Answered, Linked,
         IsVerified, Mentions;
    var r := RunBound(p, tc, w).1;
    var lead, blocks := RunTrace(p, tc, w);
    if AllPassed(r.preflight) {
      var pass := FirstPass(p, tc, Probe(p, PreflightIdentities(tc), w).0);
      var g := GuardedDenials(tc.expected, pass.verified);
      AssessmentsAt(tc, pass.executions, g, tc.identities);
      var a := r.assessments[j];
      if a.source.ByVerification? && a.expected == Some(Deny) && a.decision.Denied? {
        var i, k := ControlOfDenial(p, tc, pass, blocks, tc.identities[j]);
      }
    } else {
      UnreadyAt(tc, tc.identities);
    }
  }

  lemma ControlOfDenial<S>(p: Platform<S>, tc: TestCase, pass: Pass<S>, blocks: seq<seq<Event<S>>>,
      id: Identity) returns (i: nat, k: nat)
    requires Sound(tc) && BlocksOk(p, tc, ExecutionOrder(tc), blocks)
    requires forall n :: 0 <= n < |blocks| ==> Recorded(p, tc, ExecutionOrder(tc)[n], blocks[n], pass)
    requires forall x :: x in pass.verified <==> Mentions(ExecutionOrder(tc), x) && IsVerified(tc, x)
    requires var a := FinalAssessment(tc, pass.executions, GuardedDenials(tc.expected, pass.verified), id);
      a.source.ByVerification? && a.expected == Some(Deny) && a.decision.Denied?
    ensures i < |tc.expected| && k < |tc.identities|
    ensures tc.expected[i].decision.Allow? && tc.expected[i].identityId == tc.identities[k].id
    ensures var a := FinalAssessment(tc, pass.executions, GuardedDenials(tc.expected, pass.verified), tc.identities[k]);
      a.source.ByVerification? && a.decision.Allowed?
  {
    hide BlockOk, Recorded, Conclusion, GuardedDenials, Mentions, IsVerified;
    var g := GuardedDenials(tc.expected, pass.verified);
    NoUncalibratedDenial(tc.expected, pass.verified);
    NotConcludedByVerification(tc, pass.executions, g, id);
    assert Calibrated(tc.expected, g);
    i :| 0 <= i < |tc.expected| && tc.expected[i].decision.Allow?
      && tc.expected[i].identityId in g && g[tc.expected[i].identityId].decision.Allowed?;
    k := MentionedInCase(tc, tc.expected[i].identityId);
    VerifiedSource(p, tc, pass, blocks, tc.identities[k]);
    GuardKeepsSource(tc.expected, pass.verified, tc.identities[k].id);
  }

  lemma GuardKeepsSource(expected: seq<ExpectedAccess>, verified: map<string, Assessment>, id: string)
    requires id in verified
    ensures id in GuardedDenials(expected, verified)
      && GuardedDenials(expected, verified)[id].source == verified[id].source
  {
  }

  lemma NotConcludedByVerification(tc: TestCase, executions: map<string, Execution>,
      verified: map<string, Assessment>, id: Identity)
    requires FinalAssessment(tc, executions, verified, id).source.ByVerification?
    ensures id.id in verified
  {
  }

  lemma MentionedInCase(tc: TestCase, id: string) returns (k: nat)
    requires Mentions(ExecutionOrder(tc), id)
    ensures k < |tc.identities| && tc.identities[k].id == id
  {
    var _ := OrderIsPermutation(tc);
    var i :| 0 <= i < |ExecutionOrder(tc)| && ExecutionOrder(tc)[i].id == id;
    assert ExecutionOrder(tc)[i] in multiset(tc.identities);
    k :| 0 <= k < |tc.identities| && tc.identities[k] == ExecutionOrder(tc)[i];
  }

  lemma VerifiedSource<S>(p: Platform<S>, tc: TestCase, pass: Pass<S>, blocks: seq<seq<Event<S>>>, id: Identity)
    requires Sound(tc) && id in tc.identities && IsVerified(tc, id.id)
    requires BlocksOk(p, tc, ExecutionOrder(tc), blocks)
    requires forall i :: 0 <= i < |blocks| ==> Recorded(p, tc, ExecutionOrder(tc)[i], blocks[i], pass)
    ensures id.id in pass.verified && pass.verified[id.id].source.ByVerification?
  {
    hide BlockOk;
    var i := PassRecords(p, tc, pass, blocks, id);
  }

  // ----- From any run to its bound case -----

  ghost predicate SameIds(a: seq<Identity>, b: seq<Identity>) {
    |a| == |b| && forall i :: 0 <= i < |a| ==>
      a[i] == b[i].(credential := a[i].credential) && a[i].credential.SendsNoAuth() == b[i].credential.SendsNoAuth()
  }

  lemma {:induction false} BoundIds(ids: seq<Identity>, vars: map<string, string>)
    requires SubstituteIdentities(ids, vars).Some?
    ensures SameIds(SubstituteIdentities(ids, vars).value, ids)
  {
    if ids != [] {
      BoundIds(ids[1..], vars);
    }
  }

  lemma ValidIsSound(lib: Library, tc: TestCase)
    requires Valid(lib, tc)
    ensures Sound(tc) && StrictlyAssured(tc)
  {
    hide ValidSetup, ValidExpected, ValidPreflight, ValidIdentity;
  }

  /** Binding captured variables changes requests and credential values, never what decides. */
  ghost predicate SameDecisions(b: TestCase, tc: TestCase) {
    && SameIds(b.identities, tc.identities) && b.expected == tc.expected && b.requirePreflight == tc.requirePreflight
    && b.denyWhen == tc.denyWhen && b.denyStatuses == tc.denyStatuses
    && (b.verification.Some? <==> tc.verification.Some?)
    && (b.verification.Some? ==>
          var x, y := b.verification.value, tc.verification.value;
          && x.strategy == y.strategy && x.environment == y.environment && x.afterStatus == y.afterStatus
          && x.pointer == y.pointer && x.changedTo == y.changedTo && (x.reset.Some? <==> y.reset.Some?)
          && x.identity.preflight == y.identity.preflight)
  }

  lemma BoundDecisions(lib: Library, tc: TestCase, vars: map<string, string>)
    requires ApplyVars(lib, tc, vars).Some?
    ensures SameDecisions(ApplyVars(lib, tc, vars).value, tc)
  {
    hide SubstituteRequest, SubstituteIdentities, Substitution.Substitute;
    if vars != map[] {
      BoundIds(tc.identities, vars);
    }
  }

  lemma BoundCase(b: TestCase, tc: TestCase)
    requires SameDecisions(b, tc) && Sound(tc) && StrictlyAssured(tc)
    ensures Sound(b) && (UniqueExpectations(tc) ==> UniqueExpectations(b)) && StrictlyAssured(b)
  {
    forall i | 0 <= i < |b.identities|
      ensures b.identities[i].id == tc.identities[i].id
      ensures Assessed(b, b.identities[i].id) <==> Assessed(tc, tc.identities[i].id)
      ensures b.identities[i].preflight == tc.identities[i].preflight
    {
      assert b.identities[i] == tc.identities[i].(credential := b.identities[i].credential);
    }
  }

  /** What is sent after setup and probes is sent behind all probes, each of which passed. */
  lemma ProbedFirst<S>(p: Platform<S>, tc: TestCase, w: World<S>, k: nat) returns (probes: seq<Event<S>>)
    requires Sound(tc) && SetupOnly(w.trace)
    requires var t := RunBound(p, tc, w).0.trace;
      k < |t| && !t[k].call.phase.SetupPhase? && !t[k].call.phase.PreflightPhase?
    ensures var (w', r) := RunBound(p, tc, w);
      && AllPassed(r.preflight) && ProbesOk(Probing(PreflightIdentities(tc)), probes, r.preflight)
      && w.trace + probes <= w'.trace && |w.trace| + |probes| <= k
  {
    hide RunBound, BlocksOk, ResultFollows, Sound, ProbeResult, Flatten, Answered, Leads, Probing, AllPassed;
    var (w', r) := RunBound(p, tc, w);
    var blocks;
    probes, blocks := RunShape(p, tc, w);
    assert w'.trace == w.trace + (probes + Flatten(blocks));
    assert w'.trace == (w.trace + probes) + Flatten(blocks);
    NothingFlattens<Event<S>>();
    assert k >= |w.trace| + |probes|;
  }

  /** Main result: in strict mode nothing reaches the resource before the principal of every
      assessed, authenticating identity was confirmed with its own credential. */
  lemma StrictRunsAreAssured<S>(p: Platform<S>, tc: TestCase, w: World<S>, k: nat, i: nat)
    requires Sound(tc) && SetupOnly(w.trace) && tc.requirePreflight && StrictlyAssured(tc)
    requires var t := RunBound(p, tc, w).0.trace;
      k < |t| && !t[k].call.phase.SetupPhase? && !t[k].call.phase.PreflightPhase?
    requires i < |tc.identities| && Assessed(tc, tc.identities[i].id) && !tc.identities[i].credential.SendsNoAuth()
    ensures var t, id := RunBound(p, tc, w).0.trace, tc.identities[i];
      id.preflight.Some?
      && exists n :: 0 <= n < k && t[n].call == PreflightCall(id) && ProbeResult(id, t[n].execution).passed
  {
    hide RunBound, ProbeResult, Probing, Assessed, SetupOnly, Sound;
    var (w', r) := RunBound(p, tc, w);
    var probes := ProbedFirst(p, tc, w, k);
    var ids, id := PreflightIdentities(tc), tc.identities[i];
    ProbingMembers(ids);
    assert ids[i] == id && id in Probing(ids);
    var n :| 0 <= n < |Probing(ids)| && Probing(ids)[n] == id;
    assert w'.trace[|w.trace| + n] == probes[n] && r.preflight[n].passed;
  }

  lemma {:induction false} SetupEvents<S>(p: Platform<S>, tc: TestCase, i: nat, w: World<S>,
      vars: map<string, string>) returns (events: seq<Event<S>>)
    requires i <= |tc.setup|
    ensures Extends(p, w, events, RunSetupFrom(p, tc, i, w, vars).0) && SetupOnly(events) && |events| <= |tc.setup| - i
    decreases |tc.setup| - i
  {
    hide Extends, StepVars, SubstituteRequest, StepActor;
    events := [];
    ExtendsNothing(p, w);
    if i < |tc.setup| && StepCall(p.library, tc, i, vars).Some? {
      var c := StepCall(p.library, tc, i, vars).value;
      var (w', ex) := Send(p, w, c);
      var e := SendExtends(p, w, c);
      events := [e];
      var next := StepVars(p.library, tc.setup[i], i, ex, vars);
      if next.Some? {
        var rest := SetupEvents(p, tc, i + 1, w', next.value);
        events := [e] + rest;
        ExtendsTransitive(p, w, [e], w', rest, RunSetupFrom(p, tc, i + 1, w', next.value).0);
      }
    }
  }

  // ----- What a finished setup established -----

  ghost predicate NotCaptured(tc: TestCase, from: nat, name: string) {
    forall j :: from <= j < |tc.setup| ==> name !in tc.setup[j].capture
  }

  /** The step's request was answered with success, and its response had every declared capture. */
  ghost predicate StepDone<S>(lib: Library, step: SetupStep, i: nat, e: Event<S>) {
    && e.call.phase.SetupPhase? && !e.execution.error && e.execution.status < 400
    && forall name :: name in step.capture ==> CapturedAt(lib, i, e.execution.body, step.capture[name], name).Some?
  }

  /** A finished setup sent every step once, in order, each successfully; each variable holds what the
      last step to capture it found, and nothing else was forgotten. */
  lemma {:induction false} SetupCompletes<S>(p: Platform<S>, tc: TestCase, i: nat, w: World<S>,
      vars: map<string, string>) returns (events: seq<Event<S>>)
    requires i <= |tc.setup| && RunSetupFrom(p, tc, i, w, vars).1.Some?
    ensures var (w', r) := RunSetupFrom(p, tc, i, w, vars);
      && Extends(p, w, events, w') && |events| == |tc.setup| - i
      && (forall k :: i <= k < |tc.setup| ==> StepDone(p.library, tc.setup[k], k, events[k - i]))
      && (forall k, name :: i <= k < |tc.setup| && name in tc.setup[k].capture && NotCaptured(tc, k + 1, name) ==>
            name in r.value && Some(r.value[name])
              == CapturedAt(p.library, k, events[k - i].execution.body, tc.setup[k].capture[name], name))
      && (forall name :: name in vars && NotCaptured(tc, i, name) ==> name in r.value && r.value[name] == vars[name])
    decreases |tc.setup| - i
  {
    hide Extends, SubstituteRequest, StepActor, StepVars, NotCaptured, StepDone, Send;
    if i == |tc.setup| {
      events := [];
      ExtendsNothing(p, w);
    } else {
      var c := StepCall(p.library, tc, i, vars).value;
      var (v, ex) := Send(p, w, c);
      var e := SendExtends(p, w, c);
      var known := StepVars(p.library, tc.setup[i], i, ex, vars).value;
      var rest := SetupCompletes(p, tc, i + 1, v, known);
      events := [e] + rest;
      ExtendsTransitive(p, w, [e], v, rest, RunSetupFrom(p, tc, i + 1, v, known).0);
      StepEstablishes(p, tc, i, vars, e);
      forall name
        ensures NotCaptured(tc, i, name) <==> name !in tc.setup[i].capture && NotCaptured(tc, i + 1, name)
      {
        NotCapturedStep(tc, i, name);
      }
    }
  }

  lemma NotCapturedStep(tc: TestCase, i: nat, name: string)
    requires i < |tc.setup|
    ensures NotCaptured(tc, i, name) <==> name !in tc.setup[i].capture && NotCaptured(tc, i + 1, name)
  {
  }

  lemma StepEstablishes<S>(p: Platform<S>, tc: TestCase, i: nat, vars: map<string, string>, e: Event<S>)
    requires i < |tc.setup| && StepVars(p.library, tc.setup[i], i, e.execution, vars).Some? && e.call.phase.SetupPhase?
    ensures StepDone(p.library, tc.setup[i], i, e)
    ensures var known := StepVars(p.library, tc.setup[i], i, e.execution, vars).value;
      && (forall name :: name in tc.setup[i].capture ==>
            name in known
            && Some(known[name]) == CapturedAt(p.library, i, e.execution.body, tc.setup[i].capture[name], name))
      && (forall name :: name in vars && name !in tc.setup[i].capture ==> name in known && known[name] == vars[name])
  {
  }

  // ----- How far a setup comes -----

  /** The steps that were done from i on, each with the variables known before it; the last ones are
      those known when the setup ended. */
  ghost predicate StepsDone<S>(p: Platform<S>, tc: TestCase, i: nat, events: seq<Event<S>>,
      known: seq<map<string, string>>)
  {
    && 1 <= |known| <= |events| + 1 && i + |known| - 1 <= |tc.setup|
    && forall k :: 0 <= k < |known| - 1 ==>
         && StepCall(p.library, tc, i + k, known[k]) == Some(events[k].call)
         && StepDone(p.library, tc.setup[i + k], i + k, events[k])
         && StepVars(p.library, tc.setup[i + k], i + k, events[k].execution, known[k]) == Some(known[k + 1])
  }

  /** The request of this step cannot be built, or it is the last one sent and fails. */
  ghost predicate StepFails<S>(p: Platform<S>, tc: TestCase, i: nat, events: seq<Event<S>>, vars: map<string, string>)
    requires i < |tc.setup|
  {
    var c := StepCall(p.library, tc, i, vars);
    || (c.None? && events == [])
    || (c.Some? && |events| == 1 && events[0].call == c.value && !StepDone(p.library, tc.setup[i], i, events[0]))
  }

  /** A setup sends exactly the steps up to the first whose request cannot be built or is not answered
      with success and every declared capture, and finishes exactly when there is no such step. */
  lemma {:induction false} SetupReaches<S>(p: Platform<S>, tc: TestCase, i: nat, w: World<S>,
      vars: map<string, string>) returns (events: seq<Event<S>>, known: seq<map<string, string>>)
    requires i <= |tc.setup|
    ensures StepsDone(p, tc, i, events, known) && known[0] == vars
    ensures var (w', r) := RunSetupFrom(p, tc, i, w, vars); var n := |known| - 1;
      && Extends(p, w, events, w')
      && (r.Some? <==> i + n == |tc.setup|)
      && (r.Some? ==> |events| == n && r.value == known[n])
      && (r.None? ==> StepFails(p, tc, i + n, events[n..], known[n]))
    decreases |tc.setup| - i
  {
    hide Extends, SubstituteRequest, StepActor, StepVars, StepDone, Send, StepCall;
    events, known := [], [vars];
    ExtendsNothing(p, w);
    if i < |tc.setup| && StepCall(p.library, tc, i, vars).Some? {
      var c := StepCall(p.library, tc, i, vars).value;
      var (v, ex) := Send(p, w, c);
      var e := SendExtends(p, w, c);
      events := [e];
      CallIsSetup(p.library, tc, i, vars);
      DoneIffVars(p.library, tc.setup[i], i, e, vars);
      var next := StepVars(p.library, tc.setup[i], i, ex, vars);
      if next.Some? {
        var rest, later := SetupReaches(p, tc, i + 1, v, next.value);
        events, known := [e] + rest, [vars] + later;
        ExtendsTransitive(p, w, [e], v, rest, RunSetupFrom(p, tc, i + 1, v, next.value).0);
        StepBefore(p, tc, i, e, vars, rest, later);
      }
    }
  }

  lemma StepBefore<S>(p: Platform<S>, tc: TestCase, i: nat, e: Event<S>, vars: map<string, string>,
      rest: seq<Event<S>>, later: seq<map<string, string>>)
    requires i < |tc.setup| && StepsDone(p, tc, i + 1, rest, later)
    requires StepCall(p.library, tc, i, vars) == Some(e.call) && StepDone(p.library, tc.setup[i], i, e)
    requires StepVars(p.library, tc.setup[i], i, e.execution, vars) == Some(later[0])
    ensures StepsDone(p, tc, i, [e] + rest, [vars] + later)
    ensures ([e] + rest)[|later|..] == rest[|later| - 1..]
  {
    hide StepCall, StepDone, StepVars;
    var events, known := [e] + rest, [vars] + later;
    forall k | 0 <= k < |known| - 1
      ensures StepCall(p.library, tc, i + k, known[k]) == Some(events[k].call)
      ensures StepDone(p.library, tc.setup[i + k], i + k, events[k])
      ensures StepVars(p.library, tc.setup[i + k], i + k, events[k].execution, known[k]) == Some(known[k + 1])
    {
      if k > 0 {
        assert i + 1 + (k - 1) == i + k && known[k] == later[k - 1] && events[k] == rest[k - 1];
      }
    }
  }

  lemma CallIsSetup(lib: Library, tc: TestCase, i: nat, vars: map<string, string>)
    requires i < |tc.setup| && StepCall(lib, tc, i, vars).Some?
    ensures StepCall(lib, tc, i, vars).value.phase.SetupPhase?
  {
    hide SubstituteRequest, StepActor;
  }

  lemma DoneIffVars<S>(lib: Library, step: SetupStep, i: nat, e: Event<S>, vars: map<string, string>)
    requires e.call.phase.SetupPhase?
    ensures StepDone(lib, step, i, e) <==> StepVars(lib, step, i, e.execution, vars).Some?
  {
  }

  /** Every finished run of a validated case is a run of its bound case, entered with nothing
      sent but setup steps; so the results above hold of every run. */
  lemma RunsAreBound<S>(p: Platform<S>, tc: TestCase, s: S, cancelled: bool) returns (b: TestCase, w: World<S>)
    requires Run(p, tc, World(s, cancelled, [])).1.Finished?
    ensures Run(p, tc, World(s, cancelled, [])) == (RunBound(p, b, w).0, Finished(RunBound(p, b, w).1))
    ensures Valid(p.library, tc) && SetupOnly(w.trace) && |w.trace| <= |tc.setup|
    ensures Sound(b) && SameDecisions(b, tc) && StrictlyAssured(b) && (UniqueExpectations(tc) ==> UniqueExpectations(b))
  {
    hide Valid, RunBound, ApplyVars, RunSetupFrom, Sound, SameDecisions;
    var start := World(s, cancelled, []);
    var (w', vars) := RunSetupFrom(p, tc, 0, start, map[]);
    var events := SetupEvents(p, tc, 0, start, map[]);
    b, w := ApplyVars(p.library, tc, vars.value).value, w';
    ValidIsSound(p.library, tc);
    BoundDecisions(p.library, tc, vars.value);
    BoundCase(b, tc);
    assert w.trace == events;
  }
}
