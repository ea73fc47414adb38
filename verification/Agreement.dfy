/** The agreement of access findings with assessments: the exact condition for one result of one
    run, and the condition on a case under which every run agrees. */
module Agreement {
  import opened Basics
  import opened Model
  import opened Server
  import opened Validation
  import opened Judgement
  import opened Setup
  import opened Engine
  import opened Attempts
  import opened Runs
  import opened RunTheorems
  import opened RunResults
  import Dotted

  // ----- Result lists by position -----

  lemma {:induction false} FindingsFrom(lib: Library, tc: TestCase, executions: map<string, Execution>,
      verified: map<string, Assessment>, ids: seq<Identity>)
    ensures forall f ::
      f in Findings(lib, tc, executions, verified, ids)
      <==> (exists i :: 0 <= i < |ids| && AccessFinding(lib, tc, executions, verified, ids[i]) == Some(f))
  {
    hide AccessFinding;
    if ids != [] {
      FindingsFrom(lib, tc, executions, verified, ids[1..]);
      forall f
        ensures f in Findings(lib, tc, executions, verified, ids)
          <==> exists i :: 0 <= i < |ids| && AccessFinding(lib, tc, executions, verified, ids[i]) == Some(f)
      {
        if exists i :: 0 <= i < |ids| && AccessFinding(lib, tc, executions, verified, ids[i]) == Some(f) {
          var i :| 0 <= i < |ids| && AccessFinding(lib, tc, executions, verified, ids[i]) == Some(f);
          assert i > 0 ==> ids[i] == ids[1..][i - 1];
        }
        if f in Findings(lib, tc, executions, verified, ids[1..]) {
          var i :| 0 <= i < |ids[1..]| && AccessFinding(lib, tc, executions, verified, ids[1..][i]) == Some(f);
          assert ids[1..][i] == ids[i + 1];
        }
      }
    }
  }

  lemma FindingIdentity(lib: Library, tc: TestCase, executions: map<string, Execution>,
      verified: map<string, Assessment>, id: Identity)
    ensures var f := AccessFinding(lib, tc, executions, verified, id); f.Some? ==> f.value.identityId == id.id
  {
  }

  lemma {:induction false} ExecutionsAt(executions: map<string, Execution>, ids: seq<Identity>)
    ensures var e := Executions(executions, ids);
      |e| == |ids| && forall i :: 0 <= i < |ids| ==> e[i] == ExecutionOf(executions, ids[i].id)
  {
    if ids != [] {
      ExecutionsAt(executions, ids[1..]);
    }
  }

  lemma FindingsOfIdentity(lib: Library, tc: TestCase, executions: map<string, Execution>,
      verified: map<string, Assessment>, i: nat)
    requires DistinctIdentities(tc.identities) && i < |tc.identities|
    ensures
      (exists f ::
        f in Findings(lib, tc, executions, verified, tc.identities) && f.identityId == tc.identities[i].id)
      <==> AccessFinding(lib, tc, executions, verified, tc.identities[i]).Some?
  {
    hide AccessFinding, Findings;
    var ids, findings := tc.identities, Findings(lib, tc, executions, verified, tc.identities);
    FindingsFrom(lib, tc, executions, verified, ids);
    FindingIdentity(lib, tc, executions, verified, ids[i]);
    var own := AccessFinding(lib, tc, executions, verified, ids[i]);
    if own.Some? {
      assert own.value in findings;
    }
    if f :| f in findings && f.identityId == ids[i].id {
      var k :| 0 <= k < |ids| && AccessFinding(lib, tc, executions, verified, ids[k]) == Some(f);
      FindingIdentity(lib, tc, executions, verified, ids[k]);
      assert k == i;
    }
  }

  // ----- The three ways a finding and an assessment can part -----

  function DecisionFor(tc: TestCase, id: string): Option<AccessDecision> {
    var ea := ExpectedFor(tc.expected, id);
    if ea.Some? then Some(ea.value.decision) else None
  }

  function LastDecisionFor(tc: TestCase, id: string): Option<AccessDecision> {
    var ea := LastExpected(tc.expected, id);
    if ea.Some? then Some(ea.value.decision) else None
  }

  /** On the status path: the assessment stops at an error kind, the finding only at an error. */
  ghost predicate ReadsPastKind(lib: Library, tc: TestCase, id: Identity, ex: Execution) {
    var ea := LastExpected(tc.expected, id.id);
    && !IsVerified(tc, id.id) && ea.Some? && ea.value.assertions == []
    && !ex.error && ex.errorKind
    && ((ea.value.decision.Deny? && Classify(lib, tc, ex, Reporting(id.id)).OutcomeAllow?)
        || (ea.value.decision.Allow? && Classify(lib, tc, ex, Reporting(id.id)).OutcomeDeny?))
  }

  /** On the status path: only one of two outcomes contradicts the expectation. */
  predicate TellsApart(tc: TestCase, id: string, recorded: Outcome, reported: Outcome) {
    var ea := LastExpected(tc.expected, id);
    && !IsVerified(tc, id) && ea.Some? && ea.value.assertions == []
    && ((ea.value.decision.Deny? && recorded.OutcomeAllow? != reported.OutcomeAllow?)
        || (ea.value.decision.Allow? && recorded.OutcomeDeny? != reported.OutcomeDeny?))
  }

  /** On the status path: the response is classified once for the record and once for the finding, and
      the deny condition is read differently. */
  ghost predicate ReadsTwice(lib: Library, tc: TestCase, id: Identity, ex: Execution) {
    && !ex.error && !ex.errorKind
    && TellsApart(tc, id.id, Classify(lib, tc, ex, Recording(id.id)), Classify(lib, tc, ex, Reporting(id.id)))
  }

  /** It takes a deny condition that the body leaves open. */
  lemma ReadsTwiceIsOpen(lib: Library, tc: TestCase, id: Identity, ex: Execution)
    requires ReadsTwice(lib, tc, id, ex)
    ensures tc.denyWhen.Some? && Dotted.Open(lib.text, ex.body, tc.denyWhen.value)
  {
    hide Dotted.Matches;
    var a, b := lib.order(Recording(id.id)), lib.order(Reporting(id.id));
    var cond := tc.denyWhen.value;
    assert Dotted.Matches(lib.text, ex.body, cond, a) != Dotted.Matches(lib.text, ex.body, cond, b);
  }

  /** On the verified path: the first entry is judged against, the last one reported against, and
      this verdict contradicts only one of them. */
  predicate SplitBy(tc: TestCase, id: string, verdict: Verdict) {
    IsVerified(tc, id)
    && (Contradicts(DecisionFor(tc, id), verdict) != Contradicts(LastDecisionFor(tc, id), verdict))
  }

  /** Entries whose verdicts could differ at all: every verdict agrees iff the decisions are equal. */
  lemma SomeVerdictSplits(tc: TestCase, id: string)
    requires IsVerified(tc, id)
    ensures (exists v :: SplitBy(tc, id, v)) <==> DecisionFor(tc, id) != LastDecisionFor(tc, id)
  {
    if DecisionFor(tc, id) != LastDecisionFor(tc, id) {
      assert SplitBy(tc, id, Allowed) || SplitBy(tc, id, Denied);
    }
  }

  /** Verified entries were made against the first entry of exactly the verified identities. */
  ghost predicate VerifiedAgainst(tc: TestCase, ids: seq<Identity>, verified: map<string, Assessment>) {
    forall i :: 0 <= i < |ids| ==>
      && (ids[i].id in verified <==> IsVerified(tc, ids[i].id))
      && (ids[i].id in verified ==> verified[ids[i].id].expected == DecisionFor(tc, ids[i].id))
  }

  /** For one identity: the finding agrees with the final assessment exactly unless it is parted
      from it in one of the three ways. */
  lemma FindingAgreesExactly(lib: Library, tc: TestCase, executions: map<string, Execution>,
      verified: map<string, Assessment>, id: Identity)
    requires VerifiedAgainst(tc, [id], verified)
    requires var ex := ExecutionOf(executions, id.id);
      !ex.error ==> ex.outcome == Some(Classify(lib, tc, ex, Recording(id.id)))
    ensures var a := FinalAssessment(tc, executions, verified, id);
      var f := AccessFinding(lib, tc, executions, verified, id);
      && ((f.Some? <==> Contradicts(a.expected, a.decision))
          <==>
          && !ReadsPastKind(lib, tc, id, ExecutionOf(executions, id.id))
          && !ReadsTwice(lib, tc, id, ExecutionOf(executions, id.id)) && !SplitBy(tc, id.id, a.decision))
      && (f.Some? ==>
            (f.value.category.AuthorizationMismatch? <==> LastDecisionFor(tc, id.id) == Some(Allow)))
      && a.expected == if IsVerified(tc, id.id) then DecisionFor(tc, id.id) else LastDecisionFor(tc, id.id)
  {
    hide Classify, ClassifyUnexpectedAccess, Claims, MatchedRules, ExpectedFor, LastExpected;
    assert [id][0] == id;
    SameNames(tc, id.id);
  }

  /** An identity has a first entry exactly when it has a last one. */
  lemma SameNames(tc: TestCase, id: string)
    ensures ExpectedFor(tc.expected, id).Some? <==> LastExpected(tc.expected, id).Some?
  {
  }

  // ----- One run -----

  /** The i-th identity has an access finding exactly when its assessment contradicts the
      expectation it was made against. */
  ghost predicate AgreesAt(tc: TestCase, r: RunResult, i: nat)
    requires i < |tc.identities| && i < |r.assessments|
  {
    var a := r.assessments[i];
    (exists f :: f in r.findings && f.identityId == tc.identities[i].id) <==> Contradicts(a.expected, a.decision)
  }

  /** The expectation an assessment records. */
  function RecordedDecision(tc: TestCase, id: string, ready: bool): Option<AccessDecision> {
    if !ready || IsVerified(tc, id) then DecisionFor(tc, id) else LastDecisionFor(tc, id)
  }

  lemma RecordedOutcome<S>(p: Platform<S>, tc: TestCase, id: Identity, block: seq<Event<S>>, pass: Pass<S>)
    requires BlockOk(p, tc, id, block) && Recorded(p, tc, id, block, pass)
    ensures var ex := ExecutionOf(pass.executions, id.id);
      !ex.error ==> ex.outcome == Some(Classify(p.library, tc, ex, Recording(id.id)))
  {
    var raw := if IsVerified(tc, id.id) then BlockExecution(tc.verification.value, block) else block[0].execution;
    ClassifyIgnoresOutcome(p.library, tc, id.id, raw);
  }

  lemma ClassifyIgnoresOutcome(lib: Library, tc: TestCase, id: string, ex: Execution)
    ensures forall occasion ::
      Classify(lib, tc, Reclassified(lib, tc, id, ex), occasion) == Classify(lib, tc, ex, occasion)
  {
  }

  lemma PassVerifiedAgainst<S>(p: Platform<S>, tc: TestCase, pass: Pass<S>, blocks: seq<seq<Event<S>>>)
    requires Sound(tc) && BlocksOk(p, tc, ExecutionOrder(tc), blocks)
    requires forall i :: 0 <= i < |blocks| ==> Recorded(p, tc, ExecutionOrder(tc)[i], blocks[i], pass)
    requires forall x :: x in pass.verified <==> Mentions(ExecutionOrder(tc), x) && IsVerified(tc, x)
    ensures VerifiedAgainst(tc, tc.identities, GuardedDenials(tc.expected, pass.verified))
  {
    hide BlockOk, Mentions, ExpectedFor, IsVerified, DemotedVerdict;
    NoUncalibratedDenial(tc.expected, pass.verified);
    var g := GuardedDenials(tc.expected, pass.verified);
    forall i | 0 <= i < |tc.identities|
      ensures tc.identities[i].id in g <==> IsVerified(tc, tc.identities[i].id)
      ensures tc.identities[i].id in g ==> g[tc.identities[i].id].expected == DecisionFor(tc, tc.identities[i].id)
    {
      var id := tc.identities[i];
      var k := PassRecords(p, tc, pass, blocks, id);
      assert Mentions(ExecutionOrder(tc), id.id) by { IsMentioned(ExecutionOrder(tc), k); }
      assert Recorded(p, tc, id, blocks[k], pass);
      if IsVerified(tc, id.id) {
        VerifiedExpectation(p, tc, id, blocks[k], pass);
        assert g[id.id].expected == pass.verified[id.id].expected;
      }
    }
  }

  lemma IsMentioned(ids: seq<Identity>, k: nat)
    requires k < |ids|
    ensures Mentions(ids, ids[k].id)
  {
  }

  lemma VerifiedExpectation<S>(p: Platform<S>, tc: TestCase, id: Identity, block: seq<Event<S>>, pass: Pass<S>)
    requires BlockOk(p, tc, id, block) && Recorded(p, tc, id, block, pass) && IsVerified(tc, id.id)
    ensures id.id in pass.verified && pass.verified[id.id].expected == DecisionFor(tc, id.id)
  {
    hide ExpectedFor;
  }

  /** The assessment came to a decision, or its response has an error kind without an error. */
  predicate Decided(a: Assessment, ex: Execution) {
    a.decision.Allowed? || a.decision.Denied? || (ex.errorKind && !ex.error)
  }

  /** An unexpected access is never reported beside an assessment that came to no decision. */
  lemma DenyFindingIsDecided(lib: Library, tc: TestCase, executions: map<string, Execution>,
      verified: map<string, Assessment>, id: Identity)
    requires var ex := ExecutionOf(executions, id.id);
      !ex.error ==> ex.outcome == Some(Classify(lib, tc, ex, Recording(id.id)))
    requires AccessFinding(lib, tc, executions, verified, id).Some? && LastDecisionFor(tc, id.id) == Some(Deny)
    ensures Decided(FinalAssessment(tc, executions, verified, id), ExecutionOf(executions, id.id))
  {
    hide Dotted.Matches, ClassifyUnexpectedAccess, Claims, MatchedRules, LastExpected;
  }

  /** What is known of the i-th identity after the passes. */
  ghost predicate ExactAt(lib: Library, tc: TestCase, r: RunResult, i: nat)
    requires i < |tc.identities|
  {
    && |r.assessments| == |r.executions| == |tc.identities|
    && var id, a := tc.identities[i], r.assessments[i];
       && a.identityId == id.id
       && a.expected == RecordedDecision(tc, id.id, true)
       && (AgreesAt(tc, r, i) <==>
             && !ReadsPastKind(lib, tc, id, r.executions[i]) && !ReadsTwice(lib, tc, id, r.executions[i])
             && !SplitBy(tc, id.id, a.decision))
       && (forall f :: f in r.findings && f.identityId == id.id ==>
             && (f.category.AuthorizationMismatch? <==> LastDecisionFor(tc, id.id) == Some(Allow))
             && (LastDecisionFor(tc, id.id) == Some(Deny) ==> Decided(a, r.executions[i])))
  }

  lemma ConcludedExactly(lib: Library, tc: TestCase, executions: map<string, Execution>,
      verified: map<string, Assessment>, preflight: seq<PreflightResult>, i: nat)
    requires DistinctIdentities(tc.identities) && i < |tc.identities|
    requires VerifiedAgainst(tc, tc.identities, verified)
    requires var ex := ExecutionOf(executions, tc.identities[i].id);
      !ex.error ==> ex.outcome == Some(Classify(lib, tc, ex, Recording(tc.identities[i].id)))
    requires FinalAssessment(tc, executions, verified, tc.identities[i]).identityId == tc.identities[i].id
    ensures ExactAt(lib, tc, Conclude(lib, tc, executions, verified, preflight), i)
  {
    hide Classify, AccessFinding, FinalAssessment, Contradicts, ReadsPastKind, ReadsTwice, SplitBy, Findings,
         Assessments, Executions, LastDecisionFor, Decided;
    var id := tc.identities[i];
    AssessmentsAt(tc, executions, verified, tc.identities);
    ExecutionsAt(executions, tc.identities);
    FindingsOfIdentity(lib, tc, executions, verified, i);
    FindingAgreesExactly(lib, tc, executions, verified, id);
    var r := Conclude(lib, tc, executions, verified, preflight);
    forall f | f in r.findings && f.identityId == id.id
      ensures f.category.AuthorizationMismatch? <==> LastDecisionFor(tc, id.id) == Some(Allow)
      ensures LastDecisionFor(tc, id.id) == Some(Deny) ==> Decided(r.assessments[i], r.executions[i])
    {
      FindingsFrom(lib, tc, executions, verified, tc.identities);
      var k :| 0 <= k < |tc.identities| && AccessFinding(lib, tc, executions, verified, tc.identities[k]) == Some(f);
      FindingIdentity(lib, tc, executions, verified, tc.identities[k]);
      assert k == i;
      if LastDecisionFor(tc, id.id) == Some(Deny) {
        DenyFindingIsDecided(lib, tc, executions, verified, id);
      }
    }
  }

  lemma NamedAssessment<S>(p: Platform<S>, tc: TestCase, pass: Pass<S>, id: Identity, block: seq<Event<S>>)
    requires BlockOk(p, tc, id, block) && Recorded(p, tc, id, block, pass)
    requires id.id in pass.verified <==> IsVerified(tc, id.id)
    ensures FinalAssessment(tc, pass.executions, GuardedDenials(tc.expected, pass.verified), id).identityId == id.id
  {
    hide BlockOk, Claims, MatchedRules;
    NoUncalibratedDenial(tc.expected, pass.verified);
  }

  /** Main result, with no assumption on the server or on the expectations: in every run the finding
      of an identity agrees with its final assessment exactly unless its own recorded response reads
      past an error kind, or is classified differently when it is reported on, or its verdict splits
      two differing entries. */
  lemma RunAgreesExactly<S>(p: Platform<S>, tc: TestCase, w: World<S>, i: nat)
    requires Sound(tc) && i < |tc.identities|
    ensures var r := RunBound(p, tc, w).1;
      if AllPassed(r.preflight) then ExactAt(p.library, tc, r, i)
      else |r.assessments| == |tc.identities| && AgreesAt(tc, r, i) && r.findings == []
           && r.assessments[i].identityId == tc.identities[i].id
           && r.assessments[i].expected == RecordedDecision(tc, tc.identities[i].id, false)
           && (r.assessments[i].decision.Inconclusive? || r.assessments[i].decision.Skipped?)
  {
    hide Extends, FirstPass, ExactAt, AccessFinding, FinalAssessment, GuardedDenials, BlockOk, SharesBaseline, Recorded,
         UnreadyAssessments, Assessments, Findings, Executions, Mentions, ProbesOk;
    var r := RunBound(p, tc, w).1;
    var probes, blocks := RunShape(p, tc, w);
    if AllPassed(r.preflight) {
      var pass := FirstPass(p, tc, Probe(p, PreflightIdentities(tc), w).0);
      var verified := GuardedDenials(tc.expected, pass.verified);
      var id := tc.identities[i];
      var k := PassRecords(p, tc, pass, blocks, id);
      IsMentioned(ExecutionOrder(tc), k);
      PassVerifiedAgainst(p, tc, pass, blocks);
      RecordedOutcome(p, tc, id, blocks[k], pass);
      NamedAssessment(p, tc, pass, id, blocks[k]);
      ConcludedExactly(p.library, tc, pass.executions, verified, r.preflight, i);
    } else {
      UnreadyAt(tc, tc.identities);
    }
  }
}
