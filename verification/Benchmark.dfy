/** The accuracy benchmark's accounting over engine results. */
module Benchmark {
  import opened Basics
  import opened Model
  import opened Server
  import opened Judgement
  import opened Validation
  import opened Setup
  import opened Engine
  import opened Runs
  import opened RunTheorems
  import opened RunResults
  import opened Agreement
  import opened Disagreement
  import opened CaseAgreement
  import Dotted

  datatype Scenario = Scenario(id: string, actor: string, decision: AccessDecision, violation: bool)

  datatype Label = TruePositive | FalsePositive | FalseNegative | InconclusiveLabel | TrueNegative

  datatype Row = Row(scenario: Scenario, verdict: Label, inconclusive: bool)

  // ----- One row -----

  predicate WantedCategory(s: Scenario, c: Category) {
    if s.decision.Allow? then c.AuthorizationMismatch? else !c.AuthorizationMismatch?
  }

  ghost predicate Detected(s: Scenario, findings: seq<Finding>) {
    exists i :: 0 <= i < |findings| && findings[i].identityId == s.actor && WantedCategory(s, findings[i].category)
  }

  predicate Undecided(v: Verdict) {
    v.Inconclusive? || v.Skipped?
  }

  /** The actor's last assessment, or without one the first execution's outcome. */
  function Unsettled(s: Scenario, assessments: seq<Assessment>, fallback: bool): bool {
    if assessments == [] then fallback
    else
      var last := assessments[|assessments| - 1];
      if last.identityId == s.actor then Undecided(last.decision)
      else Unsettled(s, assessments[..|assessments| - 1], fallback)
  }

  function Fallback(ex: Execution): bool {
    ex.error || (ex.outcome != Some(OutcomeAllow) && ex.outcome != Some(OutcomeDeny))
  }

  function LabelOf(detected: bool, violation: bool, inconclusive: bool): Label {
    if detected && violation then TruePositive
    else if detected then FalsePositive
    else if violation then FalseNegative
    else if inconclusive then InconclusiveLabel
    else TrueNegative
  }

  /** A row is what the benchmark derives from one result. */
  ghost predicate RowOf(s: Scenario, r: RunResult, row: Row) {
    && row.scenario == s
    && r.executions != []
    && row.inconclusive == Unsettled(s, r.assessments, Fallback(r.executions[0]))
    && row.verdict == LabelOf(Detected(s, r.findings), s.violation, row.inconclusive)
  }

  method ClassifyRow(s: Scenario, r: RunResult) returns (row: Row)
    requires r.executions != []
    ensures RowOf(s, r, row)
  {
    var ex := r.executions[0];
    var inconclusive := ex.error || (ex.outcome != Some(OutcomeAllow) && ex.outcome != Some(OutcomeDeny));
    for i := 0 to |r.assessments|
      invariant inconclusive == Unsettled(s, r.assessments[..i], Fallback(ex))
    {
      assert r.assessments[..i + 1][..i] == r.assessments[..i];
      if r.assessments[i].identityId == s.actor {
        inconclusive := r.assessments[i].decision.Inconclusive? || r.assessments[i].decision.Skipped?;
      }
    }
    assert r.assessments[..|r.assessments|] == r.assessments;
    var detected := false;
    for i := 0 to |r.findings|
      invariant detected <==> Detected(s, r.findings[..i])
    {
      assert r.findings[..i + 1] == r.findings[..i] + [r.findings[i]];
      DetectedStep(s, r.findings[..i], r.findings[i]);
      if r.findings[i].identityId == s.actor && WantedCategory(s, r.findings[i].category) {
        detected := true;
      }
    }
    assert r.findings[..|r.findings|] == r.findings;
    if detected && s.violation {
      return Row(s, TruePositive, inconclusive);
    } else if detected {
      return Row(s, FalsePositive, inconclusive);
    } else if s.violation {
      return Row(s, FalseNegative, inconclusive);
    } else if inconclusive {
      return Row(s, InconclusiveLabel, true);
    } else {
      return Row(s, TrueNegative, false);
    }
  }

  lemma DetectedStep(s: Scenario, findings: seq<Finding>, f: Finding)
    ensures Detected(s, findings + [f]) <==>
      Detected(s, findings) || (f.identityId == s.actor && WantedCategory(s, f.category))
  {
    var all := findings + [f];
    assert all[|findings|] == f;
    assert forall i :: 0 <= i < |findings| ==> all[i] == findings[i];
  }

  /** Assessment i is the last one of this identity. */
  ghost predicate IsLast(assessments: seq<Assessment>, id: string, i: nat) {
    && i < |assessments| && assessments[i].identityId == id
    && forall j :: i < j < |assessments| ==> assessments[j].identityId != id
  }

  lemma {:induction false} UnsettledIs(s: Scenario, assessments: seq<Assessment>, fallback: bool)
    ensures if exists i: nat :: IsLast(assessments, s.actor, i)
      then exists i: nat :: IsLast(assessments, s.actor, i)
                            && Unsettled(s, assessments, fallback) == Undecided(assessments[i].decision)
      else Unsettled(s, assessments, fallback) == fallback
  {
    if assessments != [] {
      var n := |assessments| - 1;
      if assessments[n].identityId == s.actor {
        assert IsLast(assessments, s.actor, n);
      } else {
        var front := assessments[..n];
        UnsettledIs(s, front, fallback);
        forall i: nat
          ensures IsLast(assessments, s.actor, i) <==> IsLast(front, s.actor, i)
        {
        }
        if exists i: nat :: IsLast(front, s.actor, i) {
          var i: nat :| IsLast(front, s.actor, i) && Unsettled(s, front, fallback) == Undecided(front[i].decision);
          assert IsLast(assessments, s.actor, i);
        }
      }
    }
  }

  /** What a row says of a result: undecided by the last assessment of the actor, or without one by the first
      execution; and its label by whether the wanted finding was made, whether there was a violation, and that. */
  lemma RowMeans(s: Scenario, r: RunResult, row: Row)
    requires RowOf(s, r, row)
    ensures forall i: nat :: IsLast(r.assessments, s.actor, i) ==>
      (row.inconclusive <==> r.assessments[i].decision.Inconclusive? || r.assessments[i].decision.Skipped?)
    ensures (forall i: nat :: !IsLast(r.assessments, s.actor, i)) ==>
      var ex := r.executions[0];
      (row.inconclusive <==>
        ex.error || !(ex.outcome.Some? && (ex.outcome.value.OutcomeAllow? || ex.outcome.value.OutcomeDeny?)))
    ensures var found := exists i :: 0 <= i < |r.findings| && r.findings[i].identityId == s.actor
                                     && (s.decision.Allow? <==> r.findings[i].category.AuthorizationMismatch?);
      && (row.verdict.TruePositive? <==> found && s.violation)
      && (row.verdict.FalsePositive? <==> found && !s.violation)
      && (row.verdict.FalseNegative? <==> !found && s.violation)
      && (row.verdict.InconclusiveLabel? <==> !found && !s.violation && row.inconclusive)
      && (row.verdict.TrueNegative? <==> !found && !s.violation && !row.inconclusive)
  {
    UnsettledIs(s, r.assessments, Fallback(r.executions[0]));
    assert forall i: nat, j: nat :: IsLast(r.assessments, s.actor, i) && IsLast(r.assessments, s.actor, j) ==> i == j;
  }

  // ----- The totals -----

  datatype Metrics = Metrics(
    total: nat, known: nat, tp: nat, fp: nat, fn: nat, tn: nat, inconclusive: nat, misses: nat, controls: nat,
    precision: real, recall: real)

  /** part of whole, and zero of nothing. */
  function Share(part: nat, whole: nat): real {
    if whole > 0 then part as real / whole as real else 0.0
  }

  ghost function Count(rows: seq<Row>, p: Row -> bool): nat {
    if rows == [] then 0 else Count(rows[..|rows| - 1], p) + if p(rows[|rows| - 1]) then 1 else 0
  }

  ghost function Totals(rows: seq<Row>): Metrics {
    var known := Count(rows, (r: Row) => r.scenario.violation);
    var tp, fp := Count(rows, (r: Row) => r.verdict.TruePositive?), Count(rows, (r: Row) => r.verdict.FalsePositive?);
    Metrics(
      |rows|,
      known,
      tp,
      fp,
      Count(rows, (r: Row) => r.verdict.FalseNegative?),
      Count(rows, (r: Row) => r.verdict.TrueNegative?),
      Count(rows, (r: Row) => r.inconclusive),
      Count(rows, (r: Row) => r.inconclusive && r.scenario.violation),
      Count(rows, (r: Row) => r.inconclusive && !r.scenario.violation),
      Share(tp, tp + fp),
      Share(tp, known))
  }

  method Summarize(rows: seq<Row>) returns (m: Metrics)
    ensures m == Totals(rows)
  {
    m := Metrics(|rows|, 0, 0, 0, 0, 0, 0, 0, 0, 0.0, 0.0);
    for i := 0 to |rows|
      invariant m == Totals(rows[..i]).(total := |rows|, precision := 0.0, recall := 0.0)
    {
      assert rows[..i + 1][..i] == rows[..i];
      var row := rows[i];
      if row.scenario.violation {
        m := m.(known := m.known + 1);
      }
      if row.inconclusive {
        m := m.(inconclusive := m.inconclusive + 1);
        if row.scenario.violation {
          m := m.(misses := m.misses + 1);
        } else {
          m := m.(controls := m.controls + 1);
        }
      }
      match row.verdict {
        case TruePositive => m := m.(tp := m.tp + 1);
        case FalsePositive => m := m.(fp := m.fp + 1);
        case FalseNegative => m := m.(fn := m.fn + 1);
        case TrueNegative => m := m.(tn := m.tn + 1);
        case InconclusiveLabel =>
      }
    }
    assert rows[..|rows|] == rows;
    if m.tp + m.fp > 0 {
      m := m.(precision := m.tp as real / (m.tp + m.fp) as real);
    }
    if m.known > 0 {
      m := m.(recall := m.tp as real / m.known as real);
    }
  }

  lemma ShareIsFraction(part: nat, whole: nat)
    requires part <= whole
    ensures 0.0 <= Share(part, whole) <= 1.0
    ensures whole > 0 ==> Share(part, whole) * whole as real == part as real
  {
    if whole > 0 {
      var w, q := whole as real, part as real / whole as real;
      assert q * w == part as real && (1.0 - q) * w == w - part as real;
      SignOfFactor(q, w);
      SignOfFactor(1.0 - q, w);
    }
  }

  lemma SignOfFactor(x: real, w: real)
    requires w > 0.0 && x * w >= 0.0
    ensures x >= 0.0
  {
  }

  ghost predicate FromResult(row: Row) {
    exists r :: RowOf(row.scenario, r, row)
  }

  /** Every row came out of some result. */
  ghost predicate Derived(rows: seq<Row>) {
    forall i :: 0 <= i < |rows| ==> FromResult(rows[i])
  }

  predicate CountedTwice(row: Row) {
    row.verdict.FalsePositive? && row.inconclusive
  }

  /** How label, undecided flag and planted failure of a row hang together. */
  lemma RowAddsUp(row: Row)
    requires FromResult(row)
    ensures row.scenario.violation <==> row.verdict.TruePositive? || row.verdict.FalseNegative?
    ensures !row.scenario.violation && !row.inconclusive <==>
      (row.verdict.FalsePositive? && !row.inconclusive) || row.verdict.TrueNegative?
  {
    hide Unsettled, Detected;
    var r :| RowOf(row.scenario, r, row);
  }

  /** What the totals add up to for any results at all: the known failures split exactly into found
      and missed, and a false positive on an undecided assessment is counted twice. */
  lemma {:induction false} TotalsAddUp(rows: seq<Row>)
    requires Derived(rows)
    ensures var m := Totals(rows);
      && m.tp + m.fn == m.known
      && m.misses + m.controls == m.inconclusive
      && m.tp + m.fp + m.fn + m.tn + m.controls == m.total + Count(rows, CountedTwice)
  {
    hide FromResult, Share;
    if rows != [] {
      var n := |rows| - 1;
      assert forall i :: 0 <= i < n ==> rows[..n][i] == rows[i];
      TotalsAddUp(rows[..n]);
      RowAddsUp(rows[n]);
    }
  }

  lemma {:induction false} NoneCounted(rows: seq<Row>, p: Row -> bool)
    ensures Count(rows, p) == 0 <==> forall i :: 0 <= i < |rows| ==> !p(rows[i])
  {
    if rows != [] {
      var n := |rows| - 1;
      NoneCounted(rows[..n], p);
      assert forall i :: 0 <= i < n ==> rows[..n][i] == rows[i];
    }
  }

  /** The exact condition: the five classes partition the rows iff no false positive is undecided. */
  lemma PartitionIff(rows: seq<Row>)
    requires Derived(rows)
    ensures var m := Totals(rows);
      m.tp + m.fp + m.fn + m.tn + m.controls == m.total <==> forall i :: 0 <= i < |rows| ==> !CountedTwice(rows[i])
  {
    hide Totals;
    TotalsAddUp(rows);
    NoneCounted(rows, CountedTwice);
  }

  // ----- Rows of engine runs -----

  /** The benchmark's case: one identity, the actor, with the scenario's expectation. */
  ghost predicate CaseOf(s: Scenario, tc: TestCase) {
    && |tc.identities| == 1 && tc.identities[0].id == s.actor
    && DecisionFor(tc, s.actor) == LastDecisionFor(tc, s.actor) == Some(s.decision) && !s.decision.Skip?
  }

  /** On a consistent result detection is exactly a contradicted expectation, never an undecided one. */
  lemma ConsistentRow(s: Scenario, tc: TestCase, r: RunResult, row: Row)
    requires CaseOf(s, tc) && Consistent(tc, r) && RowOf(s, r, row)
    ensures Detected(s, r.findings) <==> Contradicts(Some(s.decision), r.assessments[0].decision)
    ensures row.inconclusive <==> Undecided(r.assessments[0].decision)
    ensures !CountedTwice(row)
  {
    var a := r.assessments[0];
    assert a.identityId == tc.identities[0].id && a.expected == Some(s.decision);
    assert r.assessments == [a];
    if f :| f in r.findings && f.identityId == a.identityId {
      var i :| 0 <= i < |r.findings| && r.findings[i] == f;
      assert f.category.AuthorizationMismatch? <==> a.expected == Some(Allow);
      assert WantedCategory(s, r.findings[i].category);
    }
    if Detected(s, r.findings) {
      var i :| 0 <= i < |r.findings| && r.findings[i].identityId == s.actor
        && WantedCategory(s, r.findings[i].category);
      assert r.findings[i] in r.findings;
    }
  }

  ghost predicate RunGives<S>(p: Platform<S>, tc: TestCase, s: S, cancelled: bool, row: Row) {
    var outcome := Run(p, tc, World(s, cancelled, [])).1;
    && CaseOf(row.scenario, tc)
    && outcome.Finished? && RowOf(row.scenario, outcome.result, row)
  }

  /** A legitimate control judged by the status line, whose deny condition some body leaves open. */
  ghost predicate Miscountable(text: Dotted.Text, s: Scenario, tc: TestCase) {
    s.decision.Allow? && !s.violation && Wavering(text, tc, s.actor)
  }

  lemma RunRow<S(!new)>(p: Platform<S>, tc: TestCase, s: S, cancelled: bool, row: Row)
    requires HonestErrors(p) && RunGives(p, tc, s, cancelled, row)
    requires !PreflightsCompatible(tc) || !Miscountable(p.library.text, row.scenario, tc)
    ensures FromResult(row) && !CountedTwice(row)
  {
    hide Run, Consistent, RowOf, HonestErrors, CountedTwice, Distinguishable, DecisionFor, LastDecisionFor, Wavering,
         PreflightsCompatible;
    UniqueIsIndistinguishable(tc, tc.identities[0].id);
    if NeverParted(p.library.text, tc) {
      RunsAgree(p, tc, s, cancelled);
      ConsistentRow(row.scenario, tc, Run(p, tc, World(s, cancelled, [])).1.result, row);
    } else if row.scenario.violation {
      ViolationCountsOnce(row);
    } else {
      DenyRow(p, tc, s, cancelled, row);
    }
  }

  lemma ViolationCountsOnce(row: Row)
    requires FromResult(row) && row.scenario.violation
    ensures !CountedTwice(row)
  {
    hide RowOf;
    RowAddsUp(row);
  }

  /** An unexpected access is only ever detected beside a decided assessment. */
  lemma DenyRow<S(!new)>(p: Platform<S>, tc: TestCase, s: S, cancelled: bool, row: Row)
    requires HonestErrors(p) && RunGives(p, tc, s, cancelled, row) && row.scenario.decision.Deny?
    ensures !CountedTwice(row)
  {
    hide Run, RunBound, HonestErrors, Valid, Sound, SameDecisions, StrictlyAssured, SetupOnly, UniqueExpectations,
         ReadsPastKind, ReadsTwice, SplitBy, AgreesAt, DecisionFor, LastDecisionFor;
    var b, w := RunsAreBound(p, tc, s, cancelled);
    assert |b.identities| == |tc.identities| by { SameSize(b, tc); }
    BoundDecision(b, tc, 0);
    var r := RunBound(p, b, w).1;
    RunAgreesExactly(p, b, w, 0);
    if AllPassed(r.preflight) {
      HonestAt(p, b, w, 0);
    }
    assert |r.assessments| == 1 && r.assessments == [r.assessments[0]];
    if Detected(row.scenario, r.findings) {
      var k :| 0 <= k < |r.findings| && r.findings[k].identityId == row.scenario.actor;
      assert r.findings[k] in r.findings;
    }
  }

  lemma BoundDecision(b: TestCase, tc: TestCase, i: nat)
    requires SameDecisions(b, tc) && i < |tc.identities|
    ensures i < |b.identities| && b.identities[i].id == tc.identities[i].id
    ensures LastDecisionFor(b, tc.identities[i].id) == LastDecisionFor(tc, tc.identities[i].id)
  {
    hide LastExpected;
    assert b.identities[i] == tc.identities[i].(credential := b.identities[i].credential);
  }

  // A status no condition lists: the record is undecided unless the body is read as a denial.
  const UNLISTED := 600

  lemma ValidListsLess(lib: Library, tc: TestCase)
    requires Valid(lib, tc)
    ensures UNLISTED !in tc.denyStatuses
  {
    hide ValidSetup, ValidExpected, ValidIdentity, ValidVerification, ValidPreflights;
  }

  /** A miscountable control is counted twice in some run. */
  lemma MiscountedRun(lib: Library, s: Scenario, tc: TestCase) returns (p: Platform<Stage>, row: Row)
    requires Valid(lib, tc) && CaseOf(s, tc) && CanFinish(lib, tc) && PreflightsCompatible(tc)
    requires Miscountable(lib.text, s, tc)
    ensures HonestErrors(p) && SameText(p.library, lib) && row.scenario == s
    ensures RunGives(p, tc, Stage(0, false), false, row) && CountedTwice(row)
  {
    hide Run, RunBound, HonestErrors, Valid, Sound, SameDecisions, Confirmable, PreflightsCompatible, ApplyVars, Replay,
         Staged, SameCaptures, ReadsTwice, AgreesAt, Dotted.Matches, ReadsPastKind, SplitBy, IsVerified, LastExpected,
         DecisionFor;
    var l, answers :| SameText(l, lib) && Finishes(l, tc, answers);
    var b := BoundFacts(lib, l, tc, answers);
    ValidListsLess(lib, tc);
    var cond := tc.denyWhen.value;
    var body :| Dotted.Open(lib.text, body, cond);
    var x: Dotted.Order, y: Dotted.Order
      :| Dotted.Matches(lib.text, body, cond, x) && !Dotted.Matches(lib.text, body, cond, y);
    var ex := FINE.(status := UNLISTED, body := body);
    var sc := Script(TwoReadings(l, y, x), answers, ex, "", false, FINE, FINE);
    StagedIsHonest(sc);
    StagedLibrary(sc);
    p := Staged(sc);
    assert SameCaptures(sc.library, l) by { CapturesOf(sc.library, l); }
    var _, w := StagedFinishes(lib, l, sc, tc);
    BoundDecision(b, tc, 0);
    assert |b.identities| == |tc.identities| by { SameSize(b, tc); }
    SameStatusPath(b, tc, s.actor);
    assert ReadsTwice(sc.library, b, b.identities[0], ex) by {
      ControlReadsTwice(sc.library, b, b.identities[0], ex);
    }
    WaveringRun(sc, b, 0, w);
    RunAgreesExactly(p, b, w, 0);
    var r := RunBound(p, b, w).1;
    ControlIsUndecided(sc.library, b, b.identities[0], ex);
    row := Row(s, FalsePositive, true);
    ControlRow(s, b, r, row);
  }

  lemma SameStatusPath(b: TestCase, tc: TestCase, id: string)
    requires SameDecisions(b, tc)
    ensures IsVerified(b, id) == IsVerified(tc, id) && LastExpected(b.expected, id) == LastExpected(tc.expected, id)
    ensures b.denyWhen == tc.denyWhen && b.denyStatuses == tc.denyStatuses
  {
    hide LastExpected, ExpectedFor;
  }

  ghost predicate ControlOf(lib: Library, tc: TestCase, id: Identity, ex: Execution) {
    && !IsVerified(tc, id.id) && LastDecisionFor(tc, id.id) == Some(Allow)
    && LastExpected(tc.expected, id.id).value.assertions == [] && tc.denyWhen.Some?
    && ex.status == UNLISTED && !ex.error && !ex.errorKind && UNLISTED !in tc.denyStatuses
    && !Dotted.Matches(lib.text, ex.body, tc.denyWhen.value, lib.order(Recording(id.id)))
    && Dotted.Matches(lib.text, ex.body, tc.denyWhen.value, lib.order(Reporting(id.id)))
  }

  lemma ControlReadsTwice(lib: Library, tc: TestCase, id: Identity, ex: Execution)
    requires ControlOf(lib, tc, id, ex)
    ensures ReadsTwice(lib, tc, id, ex)
  {
    hide Dotted.Matches, LastExpected, IsVerified;
  }

  lemma ControlIsUndecided(lib: Library, tc: TestCase, id: Identity, ex: Execution)
    requires ControlOf(lib, tc, id, ex)
    ensures var recorded := Reclassified(lib, tc, id.id, ex);
      Demoted(tc, id, recorded, Conclusion(id.id, recorded, LastExpected(tc.expected, id.id))).decision.Inconclusive?
  {
    hide Dotted.Matches, LastExpected, IsVerified, MatchedRules, Claims;
  }

  lemma ControlRow(s: Scenario, tc: TestCase, r: RunResult, row: Row)
    requires |tc.identities| == |r.assessments| == 1 && tc.identities[0].id == s.actor && r.executions != []
    requires r.assessments[0].identityId == s.actor && r.assessments[0].decision.Inconclusive? && !AgreesAt(tc, r, 0)
    requires forall f :: f in r.findings && f.identityId == s.actor ==> f.category.AuthorizationMismatch?
    requires s.decision.Allow? && !s.violation && row == Row(s, FalsePositive, true)
    ensures RowOf(s, r, row)
  {
    assert r.assessments == [r.assessments[0]];
    var f :| f in r.findings && f.identityId == s.actor;
    var k :| 0 <= k < |r.findings| && r.findings[k] == f;
    assert WantedCategory(s, r.findings[k].category);
  }

  /** Main result, the exact condition for a case: no run on an honest server gives a row that is counted
      twice iff the case cannot finish, or cannot pass its preflights, or is no miscountable control. */
  lemma CountedOnceIff(lib: Library, s: Scenario, tc: TestCase)
    requires Valid(lib, tc) && CaseOf(s, tc)
    ensures (forall p: Platform<Stage>, st: Stage, cancelled: bool, row: Row ::
               HonestErrors(p) && SameText(p.library, lib) && row.scenario == s && RunGives(p, tc, st, cancelled, row)
               ==> !CountedTwice(row))
      <==> !CanFinish(lib, tc) || !PreflightsCompatible(tc) || !Miscountable(lib.text, s, tc)
  {
    hide Run, RowOf, HonestErrors, CountedTwice, Valid, CanFinish, PreflightsCompatible, Miscountable, CaseOf;
    if CanFinish(lib, tc) && PreflightsCompatible(tc) && Miscountable(lib.text, s, tc) {
      var p, row := MiscountedRun(lib, s, tc);
      assert RunGives(p, tc, Stage(0, false), false, row);
    } else {
      forall p: Platform<Stage>, st: Stage, cancelled: bool, row: Row |
        HonestErrors(p) && SameText(p.library, lib) && row.scenario == s && RunGives(p, tc, st, cancelled, row)
        ensures !CountedTwice(row)
      {
        FinishedCan(lib, p, tc, World(st, cancelled, []));
        RunRow(p, tc, st, cancelled, row);
      }
    }
  }

  /** The row was derived from a finished run of the scenario's case, and the case is no miscountable one. */
  ghost predicate FromRun<S(!new)>(p: Platform<S>, row: Row) {
    exists tc: TestCase, s: S, cancelled: bool ::
      RunGives(p, tc, s, cancelled, row)
      && (!PreflightsCompatible(tc) || !Miscountable(p.library.text, row.scenario, tc))
  }

  /** Main result: over engine runs of single-identity cases, true and false positives, misses, true
      negatives and inconclusive controls partition the rows, and found plus missed failures are
      exactly the known ones. */
  lemma Conservation<S(!new)>(p: Platform<S>, rows: seq<Row>)
    requires HonestErrors(p) && forall i :: 0 <= i < |rows| ==> FromRun(p, rows[i])
    ensures var m := Totals(rows);
      && m.tp + m.fp + m.fn + m.tn + m.controls == m.total
      && m.tp + m.fn == m.known
      && m.recall == Share(m.tp, m.tp + m.fn) && 0.0 <= m.recall <= 1.0 && 0.0 <= m.precision <= 1.0
  {
    hide RunGives, HonestErrors, FromResult, CountedTwice, Miscountable, PreflightsCompatible;
    forall i | 0 <= i < |rows|
      ensures FromResult(rows[i]) && !CountedTwice(rows[i])
    {
      assert FromRun(p, rows[i]);
      var tc, s: S, cancelled :| RunGives(p, tc, s, cancelled, rows[i])
        && (!PreflightsCompatible(tc) || !Miscountable(p.library.text, rows[i].scenario, tc));
      RunRow(p, tc, s, cancelled, rows[i]);
    }
    PartitionIff(rows);
    TotalsAddUp(rows);
    var m := Totals(rows);
    ShareIsFraction(m.tp, m.known);
    ShareIsFraction(m.tp, m.tp + m.fp);
  }
}
