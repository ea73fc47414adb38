/** Agreement on validated cases: the exact condition, its reach over whole runs, and runs that
    show what happens where it fails. */
module CaseAgreement {
  import opened Basics
  import opened Json
  import opened Model
  import opened Server
  import opened Substitution
  import opened Validation
  import opened Judgement
  import opened Setup
  import opened Engine
  import opened Runs
  import opened RunTheorems
  import opened RunResults
  import opened Agreement
  import opened Disagreement
  import opened Reach
  import Dotted
  import Pointer
  import Principal

  /** Listed with differing decisions where a write is verified, and the verdict that tells them
      apart can be reached: nothing here depends on a server. */
  ghost predicate Distinguishable(tc: TestCase, id: string) {
    && IsVerified(tc, id)
    && DecisionFor(tc, id) != LastDecisionFor(tc, id)
    && if DecisionFor(tc, id) == Some(Allow) then CanDeny(tc.verification.value) else CanAllow(tc.verification.value)
  }

  lemma DistinguishableIsSeparable(tc: TestCase, id: string)
    requires tc.verification.Some? ==> Readable(tc.verification.value)
    ensures Distinguishable(tc, id) <==> Separable(tc, id)
  {
    hide ExpectedFor, LastExpected, Possible, CanDeny, CanAllow, Readable;
    if tc.verification.Some? {
      PossibleIff(tc.verification.value);
    }
  }

  /** What any caller can read off the case: no preflight asks for a principal that no body names. */
  ghost predicate PreflightsCompatible(tc: TestCase) {
    forall i :: 0 <= i < |PreflightIdentities(tc)| && PreflightIdentities(tc)[i].preflight.Some? ==>
      Principal.Compatible(PreflightIdentities(tc)[i].preflight.value.fields)
  }

  lemma ValidConfirmable(lib: Library, tc: TestCase)
    requires Valid(lib, tc)
    ensures Confirmable(tc) <==> PreflightsCompatible(tc)
  {
    hide ValidSetup, ValidExpected, ValidIdentity, ValidVerification, StrictlyAssured, Index, Principal.Compatible,
         Principal.Satisfiable;
    var ids := PreflightIdentities(tc);
    forall i | 0 <= i < |ids|
      ensures CanPass(ids[i]) <==> (ids[i].preflight.Some? ==> Principal.Compatible(ids[i].preflight.value.fields))
    {
      assert ValidPreflight(lib, tc, ids[i]);
      if ids[i].preflight.Some? {
        Principal.SatisfiableIff(ids[i].preflight.value.fields);
      }
    }
  }

  lemma ValidVerificationOf(lib: Library, tc: TestCase)
    requires Valid(lib, tc)
    ensures tc.verification.Some? ==> Readable(tc.verification.value)
  {
    hide ValidSetup, ValidExpected, ValidIdentity, ValidVerification, ValidPreflights;
    if tc.verification.Some? {
      ValidIsReadable(lib, tc);
    }
  }

  /** Judged by the status line, and some body leaves the deny condition open. */
  ghost predicate Wavering(text: Dotted.Text, tc: TestCase, id: string) {
    var ea := LastExpected(tc.expected, id);
    && !IsVerified(tc, id) && ea.Some? && ea.value.assertions == [] && !ea.value.decision.Skip?
    && tc.denyWhen.Some? && Dotted.CanBeOpen(text, tc.denyWhen.value)
  }

  lemma WaveringWavers(text: Dotted.Text, tc: TestCase, id: string)
    requires 200 !in tc.denyStatuses
    ensures Wavering(text, tc, id) <==> Wavers(text, tc, id)
  {
    hide Dotted.Matches, LastExpected, IsVerified;
    if Wavering(text, tc, id) {
      var cond := tc.denyWhen.value;
      var body :| Dotted.Open(text, body, cond);
      var a: Dotted.Order, b: Dotted.Order
        :| Dotted.Matches(text, body, cond, a) && !Dotted.Matches(text, body, cond, b);
      var ex := FINE.(body := body);
      assert TellsApart(tc, id, ClassifyIn(text, tc, ex, a), ClassifyIn(text, tc, ex, b));
    }
    if Wavers(text, tc, id) {
      WaversIsWavering(text, tc, id);
    }
  }

  lemma WaversIsWavering(text: Dotted.Text, tc: TestCase, id: string)
    requires Wavers(text, tc, id)
    ensures Wavering(text, tc, id)
  {
    hide LastExpected, IsVerified, ClassifyIn, Dotted.CanBeOpen;
    if DenySettled(text, tc) {
      SettledNeverWavers(text, tc, id);
    }
    var ex: Execution, a: Dotted.Order, b: Dotted.Order :|
      TellsApart(tc, id, ClassifyIn(text, tc, ex, a), ClassifyIn(text, tc, ex, b));
  }

  /** The preflights' fields clash, or no identity is distinguishable or wavering. */
  ghost predicate NeverParted(text: Dotted.Text, tc: TestCase) {
    || !PreflightsCompatible(tc)
    || forall i :: 0 <= i < |tc.identities| ==>
         !Distinguishable(tc, tc.identities[i].id) && !Wavering(text, tc, tc.identities[i].id)
  }

  lemma PartableIs(text: Dotted.Text, tc: TestCase, id: string)
    requires 200 !in tc.denyStatuses && (tc.verification.Some? ==> Readable(tc.verification.value))
    ensures Partable(text, tc, id) <==> Distinguishable(tc, id) || Wavering(text, tc, id)
  {
    hide Separable, Wavers, Wavering, Distinguishable, Readable;
    DistinguishableIsSeparable(tc, id);
    WaveringWavers(text, tc, id);
  }

  // ----- Whole runs -----

  lemma SameDistinguishable(b: TestCase, tc: TestCase, i: nat)
    requires SameDecisions(b, tc) && i < |tc.identities|
    ensures |b.identities| == |tc.identities| && b.identities[i].id == tc.identities[i].id
    ensures Distinguishable(b, tc.identities[i].id) <==> Distinguishable(tc, tc.identities[i].id)
  {
    hide ExpectedFor, LastExpected, Pointer.Tokens, Decode;
    assert b.identities[i] == tc.identities[i].(credential := b.identities[i].credential);
  }

  lemma SameConsistent(b: TestCase, tc: TestCase, r: RunResult)
    requires SameDecisions(b, tc)
    ensures Consistent(b, r) <==> Consistent(tc, r)
  {
    hide ExpectedFor, LastExpected;
    forall i | 0 <= i < |tc.identities|
      ensures b.identities[i].id == tc.identities[i].id
      ensures i < |r.assessments| ==> AgreesAt(b, r, i) == AgreesAt(tc, r, i)
    {
      assert b.identities[i] == tc.identities[i].(credential := b.identities[i].credential);
    }
  }

  lemma BoundReadable(b: TestCase, tc: TestCase)
    requires SameDecisions(b, tc) && (tc.verification.Some? ==> Readable(tc.verification.value))
    ensures b.verification.Some? ==> Readable(b.verification.value)
  {
    hide Pointer.Tokens, Decode;
  }

  lemma SamePreflights(b: TestCase, tc: TestCase)
    requires SameDecisions(b, tc)
    ensures PreflightsCompatible(b) <==> PreflightsCompatible(tc)
    ensures Confirmable(b) <==> Confirmable(tc)
  {
    hide Principal.Compatible, Principal.Satisfiable;
    var xs, ys := PreflightIdentities(b), PreflightIdentities(tc);
    assert |xs| == |ys|;
    forall i | 0 <= i < |xs|
      ensures xs[i].preflight == ys[i].preflight && CanPass(xs[i]) == CanPass(ys[i])
    {
      if i < |tc.identities| {
        assert b.identities[i] == tc.identities[i].(credential := b.identities[i].credential);
      }
    }
  }

  /** Fields that clash, in the case as it is written, leave every run of its bound case unready. */
  lemma ClashIsUnconfirmable(tc: TestCase)
    requires !PreflightsCompatible(tc)
    ensures !Confirmable(tc)
  {
    hide Principal.Compatible, Principal.Satisfiable;
    var ids := PreflightIdentities(tc);
    var i :| 0 <= i < |ids| && ids[i].preflight.Some? && !Principal.Compatible(ids[i].preflight.value.fields);
    Principal.SatisfiableIff(ids[i].preflight.value.fields);
    assert !CanPass(ids[i]);
  }

  lemma ValidLeaves200(lib: Library, tc: TestCase)
    requires Valid(lib, tc)
    ensures 200 !in tc.denyStatuses
  {
    hide ValidSetup, ValidExpected, ValidIdentity, ValidVerification, ValidPreflights;
  }

  /** What parts the identities of a case parts those of its bound case. */
  lemma BoundPartable(text: Dotted.Text, b: TestCase, tc: TestCase, i: nat)
    requires SameDecisions(b, tc) && i < |tc.identities| && 200 !in tc.denyStatuses
    requires tc.verification.Some? ==> Readable(tc.verification.value)
    ensures |b.identities| == |tc.identities| && b.identities[i].id == tc.identities[i].id
    ensures Partable(text, b, b.identities[i].id)
      <==> Distinguishable(tc, tc.identities[i].id) || Wavering(text, tc, tc.identities[i].id)
  {
    hide Partable, Distinguishable, Wavering, Readable;
    BoundReadable(b, tc);
    SameDistinguishable(b, tc, i);
    SameWavering(text, b, tc, tc.identities[i].id);
    PartableIs(text, b, b.identities[i].id) by { assert b.denyStatuses == tc.denyStatuses; }
  }

  lemma SameWavering(text: Dotted.Text, b: TestCase, tc: TestCase, id: string)
    requires SameDecisions(b, tc)
    ensures Wavering(text, b, id) <==> Wavering(text, tc, id)
  {
    hide LastExpected, ExpectedFor, Dotted.CanBeOpen;
  }

  /** Main result: every finished run, setup and binding included, of a case that cannot be parted
      is consistent on an honest server. */
  lemma RunsAgree<S(!new)>(p: Platform<S>, tc: TestCase, s: S, cancelled: bool)
    requires HonestErrors(p) && NeverParted(p.library.text, tc)
    requires Run(p, tc, World(s, cancelled, [])).1.Finished?
    ensures Consistent(tc, Run(p, tc, World(s, cancelled, [])).1.result)
  {
    hide Run, RunBound, Consistent, Sound, HonestErrors, SameDecisions, StrictlyAssured, SetupOnly, Valid, Readable,
         Distinguishable, Wavering, Partable, UniqueExpectations, PreflightsCompatible, Confirmable;
    var b, w := RunsAreBound(p, tc, s, cancelled);
    SamePreflights(b, tc);
    if PreflightsCompatible(tc) {
      ValidVerificationOf(p.library, tc);
      ValidLeaves200(p.library, tc);
      assert |b.identities| == |tc.identities| by { SameSize(b, tc); }
      forall i | 0 <= i < |b.identities|
        ensures !Partable(p.library.text, b, b.identities[i].id)
      {
        BoundPartable(p.library.text, b, tc, i);
      }
      UnpartableAgrees(p, b, w);
    } else {
      ClashIsUnconfirmable(b);
      UnconfirmableIsUnready(p, b, w);
      UnreadyIsConsistent(p, b, w);
    }
    SameConsistent(b, tc, RunBound(p, b, w).1);
  }

  lemma UnpartableAgrees<S(!new)>(p: Platform<S>, tc: TestCase, w: World<S>)
    requires Sound(tc) && HonestErrors(p)
    requires forall i :: 0 <= i < |tc.identities| ==> !Partable(p.library.text, tc, tc.identities[i].id)
    ensures Consistent(tc, RunBound(p, tc, w).1)
  {
    hide RunBound, Consistent, Sound, HonestErrors, Separable, Wavers;
    InseparableAgrees(p, tc, w);
  }

  lemma SameSize(b: TestCase, tc: TestCase)
    requires SameDecisions(b, tc)
    ensures |b.identities| == |tc.identities|
  {
  }

  /** One entry per identity is more than enough. */
  lemma UniqueIsIndistinguishable(tc: TestCase, id: string)
    requires DecisionFor(tc, id) == LastDecisionFor(tc, id)
    ensures !Distinguishable(tc, id)
  {
    hide ExpectedFor, LastExpected, CanDeny, CanAllow;
  }

  /** Without setup a run is the run of the case itself. */
  lemma RunWithoutSetup<S>(p: Platform<S>, tc: TestCase, w: World<S>)
    requires Valid(p.library, tc) && tc.setup == []
    ensures Run(p, tc, w) == (RunBound(p, tc, w).0, Finished(RunBound(p, tc, w).1))
  {
    hide Valid, RunBound;
  }

  // ----- Setups that can finish -----

  /** The variables after setup when its steps from i on are answered like this. */
  ghost function Replay(lib: Library, tc: TestCase, i: nat, answers: seq<Execution>,
      vars: map<string, string>): Option<map<string, string>>
    requires i <= |tc.setup| == |answers|
    decreases |tc.setup| - i
  {
    if i == |tc.setup| then Some(vars)
    else if StepCall(lib, tc, i, vars).None? then None
    else
      var next := StepVars(lib, tc.setup[i], i, answers[i], vars);
      if next.None? then None else Replay(lib, tc, i + 1, answers, next.value)
  }

  /** These answers let setup finish and the case be bound. */
  ghost predicate Finishes(lib: Library, tc: TestCase, answers: seq<Execution>) {
    && |answers| == |tc.setup| && (forall i :: 0 <= i < |answers| ==> Honest(answers[i]))
    && var vars := Replay(lib, tc, 0, answers, map[]);
       vars.Some? && ApplyVars(lib, tc, vars.value).Some?
  }

  ghost predicate CanFinish(lib: Library, tc: TestCase) {
    exists l, answers :: SameText(l, lib) && Finishes(l, tc, answers)
  }

  lemma {:induction false} StepsReplay<S>(p: Platform<S>, tc: TestCase, events: seq<Event<S>>,
      known: seq<map<string, string>>, answers: seq<Execution>, k: nat)
    requires StepsDone(p, tc, 0, events, known) && |events| == |answers| == |tc.setup| == |known| - 1
    requires k <= |tc.setup| && forall i :: 0 <= i < |events| ==> answers[i] == events[i].execution
    ensures Replay(p.library, tc, k, answers, known[k]) == Some(known[|tc.setup|])
    decreases |tc.setup| - k
  {
    hide StepCall, StepVars, StepDone;
    if k < |tc.setup| {
      assert StepCall(p.library, tc, 0 + k, known[k]) == Some(events[k].call);
      StepsReplay(p, tc, events, known, answers, k + 1);
    }
  }

  /** A setup that finished can finish. */
  lemma FinishedFinishes<S(!new)>(p: Platform<S>, tc: TestCase, w: World<S>)
    requires HonestErrors(p)
    requires var vars := RunSetupFrom(p, tc, 0, w, map[]).1; vars.Some? && ApplyVars(p.library, tc, vars.value).Some?
    ensures exists answers :: Finishes(p.library, tc, answers)
  {
    hide ApplyVars, StepsDone;
    var events, known := SetupReaches(p, tc, 0, w, map[]);
    var answers := seq(|events|, i requires 0 <= i < |events| => events[i].execution);
    forall i | 0 <= i < |answers|
      ensures Honest(answers[i])
    {
      assert AnswersRequest(p, events[i]);
    }
    assert |known| - 1 == |tc.setup| by { Counted(p, tc, events, known); }
    StepsReplay(p, tc, events, known, answers, 0);
    assert Finishes(p.library, tc, answers);
  }

  lemma Counted<S>(p: Platform<S>, tc: TestCase, events: seq<Event<S>>, known: seq<map<string, string>>)
    requires StepsDone(p, tc, 0, events, known)
    ensures 1 <= |known|
  {
  }

  /** The same captures on every occasion. */
  ghost predicate SameCaptures(l: Library, m: Library) {
    SameText(l, m) && forall o: Occasion :: o.Capturing? ==> l.order(o) == m.order(o)
  }

  lemma SameSteps(l: Library, m: Library, tc: TestCase, i: nat, ex: Execution, vars: map<string, string>)
    requires SameCaptures(l, m) && i < |tc.setup|
    ensures StepCall(l, tc, i, vars) == StepCall(m, tc, i, vars)
    ensures StepVars(l, tc.setup[i], i, ex, vars) == StepVars(m, tc.setup[i], i, ex, vars)
  {
    hide Substitution.Substitute, Capture, StepActor;
    SameCapture(l, m, i, ex.body, tc.setup[i].capture);
  }

  lemma SameCapture(l: Library, m: Library, i: nat, body: Raw, capture: map<string, string>)
    requires SameCaptures(l, m)
    ensures Capture(l, i, body, capture) == Capture(m, i, body, capture)
  {
    hide Dotted.ValueAt;
    forall name | name in capture
      ensures CapturedAt(l, i, body, capture[name], name) == CapturedAt(m, i, body, capture[name], name)
    {
      assert l.order(Capturing(i, name)) == m.order(Capturing(i, name));
    }
    if Capture(l, i, body, capture).Some? {
      assert Capture(l, i, body, capture).value == Capture(m, i, body, capture).value;
    }
  }

  lemma {:induction false} SameReplay(l: Library, m: Library, tc: TestCase, i: nat, answers: seq<Execution>,
      vars: map<string, string>)
    requires SameCaptures(l, m) && i <= |tc.setup| == |answers|
    ensures Replay(l, tc, i, answers, vars) == Replay(m, tc, i, answers, vars)
    decreases |tc.setup| - i
  {
    hide SameCaptures, StepCall, StepVars;
    if i < |tc.setup| {
      SameSteps(l, m, tc, i, answers[i], vars);
      var next := StepVars(l, tc.setup[i], i, answers[i], vars);
      if next.Some? {
        SameReplay(l, m, tc, i + 1, answers, next.value);
      }
    }
  }

  lemma SameBinding(l: Library, m: Library, tc: TestCase, vars: map<string, string>)
    requires SameText(l, m)
    ensures ApplyVars(l, tc, vars) == ApplyVars(m, tc, vars)
  {
    hide Substitution.Substitute;
  }

  lemma SameValidity(l: Library, m: Library, tc: TestCase)
    requires SameText(l, m)
    ensures Valid(l, tc) <==> Valid(m, tc)
  {
    hide ValidExpected, ValidCredential, Index, Pointer.Tokens, Decode, AssessedCount;
    assert forall step :: ValidStep(l, tc, step) <==> ValidStep(m, tc, step);
    assert forall id :: ValidPreflight(l, tc, id) <==> ValidPreflight(m, tc, id);
    assert forall wv :: ValidVerification(l, tc, wv) <==> ValidVerification(m, tc, wv);
  }

  /** The staged server plays its answers to setup in order. */
  lemma {:induction false} StagedSetup(sc: Script, tc: TestCase, i: nat, w: World<Stage>, vars: map<string, string>)
    requires i <= |tc.setup| == |sc.answers| && Quiet(w) && w.state.asked == i
    requires Replay(sc.library, tc, i, sc.answers, vars).Some?
    ensures var (v, r) := RunSetupFrom(Staged(sc), tc, i, w, vars);
      Quiet(v) && r == Replay(sc.library, tc, i, sc.answers, vars)
    decreases |tc.setup| - i
  {
    hide StepVars, StepActor, SubstituteRequest;
    if i < |tc.setup| {
      var c := StepCall(sc.library, tc, i, vars).value;
      var (v, ex) := Send(Staged(sc), w, c);
      StagedSetup(sc, tc, i + 1, v, StepVars(sc.library, tc.setup[i], i, ex, vars).value);
    }
  }

  lemma CapturesOf(l: Library, m: Library)
    requires SameText(l, m) && forall o: Occasion :: o.Capturing? ==> l.order(o) == m.order(o)
    ensures SameCaptures(l, m)
  {
  }

  /** A staged server that answers setup so that it finishes runs the bound case. */
  lemma StagedFinishes(lib: Library, l: Library, sc: Script, tc: TestCase) returns (b: TestCase, w: World<Stage>)
    requires Valid(lib, tc) && SameText(l, lib) && Finishes(l, tc, sc.answers) && SameCaptures(sc.library, l)
    ensures b == ApplyVars(l, tc, Replay(l, tc, 0, sc.answers, map[]).value).value && Quiet(w)
    ensures Run(Staged(sc), tc, World(Stage(0, false), false, [])).1 == Finished(RunBound(Staged(sc), b, w).1)
  {
    hide RunBound, Valid, ApplyVars, Replay, RunSetupFrom, Staged, SameCaptures;
    var vars := Replay(l, tc, 0, sc.answers, map[]).value;
    b := ApplyVars(l, tc, vars).value;
    var start := World(Stage(0, false), false, []);
    StagedLibrary(sc);
    assert SameText(sc.library, l) by { CaptureText(sc.library, l); }
    SameReplay(sc.library, l, tc, 0, sc.answers, map[]);
    SameBinding(sc.library, l, tc, vars);
    SameValidity(sc.library, lib, tc);
    StagedSetup(sc, tc, 0, start, map[]);
    w := RunSetupFrom(Staged(sc), tc, 0, start, map[]).0;
  }

  lemma CaptureText(l: Library, m: Library)
    requires SameCaptures(l, m)
    ensures SameText(l, m)
  {
  }

  /** What binding leaves as it was. */
  lemma BoundFacts(lib: Library, l: Library, tc: TestCase, answers: seq<Execution>) returns (b: TestCase)
    requires Valid(lib, tc) && Finishes(l, tc, answers)
    ensures b == ApplyVars(l, tc, Replay(l, tc, 0, answers, map[]).value).value
    ensures SameDecisions(b, tc) && Sound(b) && (Confirmable(b) <==> PreflightsCompatible(tc))
  {
    hide Valid, ApplyVars, Replay, SameDecisions, Sound, StrictlyAssured, UniqueExpectations, Confirmable,
         PreflightsCompatible;
    var vars := Replay(l, tc, 0, answers, map[]).value;
    b := ApplyVars(l, tc, vars).value;
    ValidIsSound(lib, tc);
    BoundDecisions(l, tc, vars);
    BoundCase(b, tc);
    ValidConfirmable(lib, tc);
    SamePreflights(b, tc);
  }

  /** A valid case that can finish and whose identities can be parted has an inconsistent run. */
  lemma PartedRun(lib: Library, tc: TestCase, i: nat) returns (sc: Script)
    requires Valid(lib, tc) && CanFinish(lib, tc) && PreflightsCompatible(tc) && i < |tc.identities|
    requires Distinguishable(tc, tc.identities[i].id) || Wavering(lib.text, tc, tc.identities[i].id)
    ensures HonestErrors(Staged(sc)) && SameText(Staged(sc).library, lib)
    ensures var r := Run(Staged(sc), tc, World(Stage(0, false), false, [])).1; r.Finished? && !Consistent(tc, r.result)
  {
    hide Run, RunBound, Consistent, HonestErrors, Distinguishable, Wavering, Partable, Sound, Valid, Readable,
         Confirmable, PreflightsCompatible, ApplyVars, Replay, SameDecisions, Staged, SameCaptures;
    var l, answers :| SameText(l, lib) && Finishes(l, tc, answers);
    var b := BoundFacts(lib, l, tc, answers);
    ValidVerificationOf(lib, tc);
    ValidLeaves200(lib, tc);
    BoundPartable(l.text, b, tc, i);
    sc := PartableDisagrees(l, answers, b, i);
    StagedLibrary(sc);
    assert SameCaptures(sc.library, l) by { CapturesOf(sc.library, l); }
    var _, w := StagedFinishes(lib, l, sc, tc);
    SameConsistent(b, tc, RunBound(Staged(sc), b, w).1);
  }

  /** Main result, over whole runs of a validated case: findings and assessments agree in every finished
      run on every honest server, however iteration falls, iff no responses let setup and binding
      finish, or some preflight's fields clash, or no identity is distinguishable or wavering. */
  lemma ValidAgreementIff(lib: Library, tc: TestCase)
    requires Valid(lib, tc)
    ensures (forall p: Platform<Stage>, s: Stage, cancelled: bool ::
               && HonestErrors(p) && SameText(p.library, lib)
               && Run(p, tc, World(s, cancelled, [])).1.Finished?
               ==> Consistent(tc, Run(p, tc, World(s, cancelled, [])).1.result))
      <==> !CanFinish(lib, tc) || NeverParted(lib.text, tc)
  {
    hide Run, Consistent, HonestErrors, Distinguishable, Wavering, Valid, PreflightsCompatible, Staged, CanFinish;
    if CanFinish(lib, tc) && !NeverParted(lib.text, tc) {
      var i :| 0 <= i < |tc.identities|
        && (Distinguishable(tc, tc.identities[i].id) || Wavering(lib.text, tc, tc.identities[i].id));
      var sc := PartedRun(lib, tc, i);
      assert !Consistent(tc, Run(Staged(sc), tc, World(Stage(0, false), false, [])).1.result);
    } else {
      forall p: Platform<Stage>, s: Stage, cancelled: bool |
        HonestErrors(p) && SameText(p.library, lib) && Run(p, tc, World(s, cancelled, [])).1.Finished?
        ensures Consistent(tc, Run(p, tc, World(s, cancelled, [])).1.result)
      {
        FinishedCan(lib, p, tc, World(s, cancelled, []));
        RunsAgree(p, tc, s, cancelled);
      }
    }
  }

  lemma FinishedCan<S(!new)>(lib: Library, p: Platform<S>, tc: TestCase, w: World<S>)
    requires HonestErrors(p) && SameText(p.library, lib) && Run(p, tc, w).1.Finished?
    ensures CanFinish(lib, tc)
  {
    hide HonestErrors, Valid, RunBound, ApplyVars, RunSetupFrom, Finishes;
    FinishedFinishes(p, tc, w);
  }

  // ----- Concrete runs -----

  function AsciiFold(c: char): char {
    if 'A' <= c <= 'Z' then (c as int + 32) as char else c
  }

  const ASCII := Dotted.Text(AsciiFold, n => Some(n), (b, s) => false)

  const PLAIN := Library(s => s, s => false, (a, b) => true, s => None, (a, b) => true, (b, v) => Some(b), ASCII,
    (b, f) => None, o => Dotted.ASCENDING)

  function Caller(): Identity {
    Identity("x", "", "", Credential(StaticHeader, "", ""), None)
  }

  function Reader(): Identity {
    Identity("reader", "", "", Credential(StaticHeader, "", ""), None)
  }

  function Ask(verb: string): Request {
    Request(verb, "u", map[], map[], Absent)
  }

  function CaseWith(verification: Option<WriteVerification>, denyWhen: Option<DenyCondition>,
      expected: seq<ExpectedAccess>): TestCase {
    TestCase("t", false, [Caller()], Ask("POST"), None, [], [], false, denyWhen, true, verification, [], "", expected)
  }

  function Creation(): WriteVerification {
    WriteVerification(Created, [], None, Reader(), Ask("GET"), SynchronousIsolated, false, "", Absent)
  }

  lemma PlainCaseIsValid(verification: Option<WriteVerification>, denyWhen: Option<DenyCondition>,
      expected: seq<ExpectedAccess>, lib: Library)
    requires forall i :: 0 <= i < |expected| ==> expected[i].identityId == "x" && expected[i].assertions == []
    requires verification == None || verification == Some(Creation())
    requires lib.isUnsafe == PLAIN.isUnsafe && lib.sameOrigin == PLAIN.sameOrigin
    ensures Valid(lib, CaseWith(verification, denyWhen, expected))
  {
    var tc := CaseWith(verification, denyWhen, expected);
    assert tc.identities[0].id == "x" && KnownId(tc.identities, "x");
    assert PreflightIdentities(tc) == [Caller()];
    forall i | 0 <= i < |expected|
      ensures ValidExpected(tc.identities, expected[i])
    {
    }
    if verification.Some? {
      assert !KnownId(tc.identities, "reader");
      RootPointerParses();
      assert ValidVerification(lib, tc, Creation());
    }
  }

  lemma RootPointerParses()
    ensures Pointer.Tokens("").Some?
  {
  }

  lemma WithoutSetup(lib: Library, tc: TestCase)
    requires tc.setup == []
    ensures CanFinish(lib, tc)
  {
    assert Finishes(lib, tc, []);
  }

  lemma NoPreflights(tc: TestCase)
    requires forall i :: 0 <= i < |PreflightIdentities(tc)| ==> PreflightIdentities(tc)[i].preflight.None?
    ensures Confirmable(tc)
  {
  }

  /** Two entries for one identity, first allow and then deny: a validated case and an honest server
      on which the run reports the legitimate write as expected and as a finding at once. */
  lemma DuplicateExpectationsDisagree()
    ensures exists p: Platform<Stage>, tc: TestCase, s: Stage ::
      && Valid(p.library, tc) && HonestErrors(p)
      && var outcome := Run(p, tc, World(s, false, [])).1; outcome.Finished? && !Consistent(tc, outcome.result)
  {
    hide Consistent, HonestErrors, Valid, Run, CanFinish, Staged;
    var tc := CaseWith(Some(Creation()), None, [ExpectedAccess("x", Allow, []), ExpectedAccess("x", Deny, [])]);
    PlainCaseIsValid(tc.verification, None, tc.expected, PLAIN);
    WithoutSetup(PLAIN, tc);
    assert tc.expected[0].identityId == tc.expected[1].identityId == "x";
    assert Distinguishable(tc, tc.identities[0].id);
    var sc := PartedRun(PLAIN, tc, 0);
    var s := Stage(0, false);
    SameValidity(Staged(sc).library, PLAIN, tc);
    assert !Consistent(tc, Run(Staged(sc), tc, World(s, false, [])).1.result);
  }

  /** A server that answers everything with success and an error kind but no error. */
  function Silent(): Platform<bool> {
    Platform((s, c) => Reply(s, Execution(200, Absent, false, true, None), false), PLAIN)
  }

  /** One deny expectation and such a server: the run reports an unexpected access next to an
      assessment that concluded nothing. */
  lemma SilentErrorKindDisagrees()
    ensures exists p: Platform<bool>, tc: TestCase ::
      && Valid(p.library, tc) && UniqueExpectations(tc)
      && var outcome := Run(p, tc, World(false, false, [])).1; outcome.Finished? && !Consistent(tc, outcome.result)
  {
    hide Valid, Consistent, Sound, Run;
    var p, tc := Silent(), CaseWith(None, None, [ExpectedAccess("x", Deny, [])]);
    PlainCaseIsValid(None, None, tc.expected, PLAIN);
    ValidIsSound(PLAIN, tc);
    var w := World(false, false, []);
    RunWithoutSetup(p, tc, w);
    SilentRun(w);
    InconsistentIfParted(tc, RunBound(p, tc, w).1, 0);
  }

  lemma SilentRun(w: World<bool>)
    ensures var tc := CaseWith(None, None, [ExpectedAccess("x", Deny, [])]); var r := RunBound(Silent(), tc, w).1;
      |r.assessments| == 1 && !AgreesAt(tc, r, 0)
  {
    hide AgreesAt, Valid, Assessments, Findings, Executions;
    var p, tc := Silent(), CaseWith(None, None, [ExpectedAccess("x", Deny, [])]);
    PlainCaseIsValid(None, None, tc.expected, PLAIN);
    ValidIsSound(PLAIN, tc);
    RunAgreesExactly(p, tc, w, 0);
    assert PreflightIdentities(tc) == [Caller()] && ExecutionOrder(tc) == [Caller()] && [Caller()][1..] == [];
    assert Probe(p, [Caller()], w) == (w, []);
    var start := Pass(w, None, map[], map[]);
    var pass := FirstPass(p, tc, w);
    assert pass == ExecuteAll(p, tc, [], ExecuteOne(p, tc, Caller(), start));
    ExecutionsAt(pass.executions, tc.identities);
    assert LastExpected(tc.expected, "x") == Some(ExpectedAccess("x", Deny, []));
    assert ReadsPastKind(p.library, tc, Caller(), RunBound(p, tc, w).1.executions[0]);
  }

  // ----- A deny condition with two readings -----

  /** A body that spells the field in two cases. */
  function TwiceSpelled(): Raw {
    Raw(true, [OpenObject, StringToken("Status"), StringToken("denied"), StringToken("STATUS"), StringToken("ok"),
        CloseObject])
  }

  function Meeting(first: string): Dotted.Order {
    Dotted.But(Dotted.ASCENDING, 1, first)
  }

  lemma ScalarReads(s: string)
    ensures var d := Scalar(StringToken(s));
      Acceptable(STANDARD_MODE, d, 1) && Meaning(STANDARD_MODE, d) == String(s) && Dotted.NoNumbers(Print(d))
  {
  }

  lemma LeafReads(s: string)
    ensures Dotted.ValueFrom(ASCII, String(s), [], Dotted.ASCENDING) == Some(s)
  {
  }

  lemma PrintTwo()
    ensures var denied, ok := Scalar(StringToken("denied")), Scalar(StringToken("ok"));
      Print(ObjectDoc([Member("Status", denied), Member("STATUS", ok)])) == TwiceSpelled().tokens
  {
    var members := [Member("Status", Scalar(StringToken("denied"))), Member("STATUS", Scalar(StringToken("ok")))];
    assert members[1..] == [members[1]] && members[1..][1..] == [];
    assert PrintMembers(members[1..]) == [StringToken("STATUS"), StringToken("ok")];
    assert PrintMembers(members)
        == [StringToken("Status"), StringToken("denied"), StringToken("STATUS"), StringToken("ok")];
  }

  lemma FoldsAlike(a: string, b: string)
    requires |a| == |b| && forall i :: 0 <= i < |a| ==> AsciiFold(a[i]) == AsciiFold(b[i])
    ensures Dotted.SameFold(ASCII, a, b)
  {
  }

  lemma SpellingsOfStatus()
    ensures Dotted.SameFold(ASCII, "Status", "status") && Dotted.SameFold(ASCII, "STATUS", "status")
    ensures Dotted.SameFold(ASCII, "denied", "denied") && !Dotted.SameFold(ASCII, "ok", "denied")
  {
    assert AsciiFold('S') == AsciiFold('s') && AsciiFold('T') == AsciiFold('t');
    assert AsciiFold('A') == AsciiFold('a') && AsciiFold('U') == AsciiFold('u');
    FoldsAlike("Status", "status");
    FoldsAlike("STATUS", "status");
    assert |Dotted.Folded(ASCII, "ok")| != |Dotted.Folded(ASCII, "denied")|;
  }

  function TwiceSpelledValue(): map<string, Value> {
    map["Status" := String("denied"), "STATUS" := String("ok")]
  }

  lemma TwiceSpelledDecodes()
    ensures Dotted.Unmarshal(ASCII, TwiceSpelled()) == Some(Object(TwiceSpelledValue()))
  {
    hide Acceptable, Meaning, MembersMeaning, PrintMembers, Print;
    var denied, ok := Scalar(StringToken("denied")), Scalar(StringToken("ok"));
    var d := ObjectDoc([Member("Status", denied), Member("STATUS", ok)]);
    ScalarReads("denied");
    ScalarReads("ok");
    Dotted.TwoMembers("Status", denied, "STATUS", ok, 0);
    PrintTwo();
    assert Print(d) + [] == Print(d);
    ParsePrint(STANDARD_MODE, d, 0, []);
  }

  lemma TwiceSpelledReads()
    ensures Dotted.ValueAt(ASCII, TwiceSpelled(), "status", Meeting("Status")) == Some("denied")
    ensures Dotted.ValueAt(ASCII, TwiceSpelled(), "status", Meeting("STATUS")) == Some("ok")
  {
    hide Dotted.ValueFrom, Dotted.SameFold, Dotted.Unmarshal;
    TwiceSpelledDecodes();
    assert Principal.Parts("status") == ["status"] by { Pointer.SplitConcat("status", "", '.'); }
    var members := TwiceSpelledValue();
    SpellingsOfStatus();
    Dotted.Through(ASCII, members, ["status"], Dotted.ASCENDING, "Status");
    Dotted.Through(ASCII, members, ["status"], Dotted.ASCENDING, "STATUS");
    assert ["status"][1..] == [];
    LeafReads("denied");
    LeafReads("ok");
  }

  function OpenCase(decision: AccessDecision): TestCase {
    CaseWith(None, Some(DenyCondition([], "status", "denied")), [ExpectedAccess("x", decision, [])])
  }

  /** Every request is answered with that body: with success where access should be denied, with 404
      where it should be allowed. The record reads what is expected, or nothing decisive. */
  function OpenScript(decision: AccessDecision): Script {
    var denied, ok := Meeting("Status"), Meeting("STATUS");
    if decision.Deny? then
      Script(TwoReadings(PLAIN, denied, ok), [], FINE.(body := TwiceSpelled()), "", false, FINE, FINE)
    else
      Script(TwoReadings(PLAIN, ok, denied), [], FINE.(status := 404, body := TwiceSpelled()), "", false, FINE, FINE)
  }

  lemma OpenScriptReadsTwice(decision: AccessDecision)
    requires !decision.Skip?
    ensures var sc, tc := OpenScript(decision), OpenCase(decision);
      && ReadsTwice(sc.library, tc, Caller(), sc.response)
      && Classify(sc.library, tc, sc.response, Recording("x"))
         == if decision.Deny? then OutcomeDeny else OutcomeNotFound
  {
    hide Dotted.ValueAt, Dotted.SameFold;
    TwiceSpelledReads();
    SpellingsOfStatus();
    var tc := OpenCase(decision);
    assert LastExpected(tc.expected, "x") == Some(ExpectedAccess("x", decision, []));
    assert !Dotted.Mentions(ASCII, TwiceSpelled(), []);
  }

  /** One expectation, an honest server and such a body: with a deny expectation an assessment of
      denial next to a finding of access, with an allow expectation an undecided assessment next to a
      finding of denial. */
  lemma AmbiguousFieldDisagrees(decision: AccessDecision)
    requires !decision.Skip?
    ensures var p, tc := Staged(OpenScript(decision)), OpenCase(decision);
      && Valid(p.library, tc) && HonestErrors(p) && UniqueExpectations(tc)
      && var outcome := Run(p, tc, World(Stage(0, false), false, [])).1;
         && outcome.Finished? && !Consistent(tc, outcome.result) && |outcome.result.assessments| == 1
         && outcome.result.assessments[0].decision == if decision.Deny? then Denied else Inconclusive
  {
    hide Valid, Consistent, Sound, Run, RunBound, AgreesAt, ReadsTwice, Classify, Staged, HonestErrors, Confirmable;
    var sc, tc := OpenScript(decision), OpenCase(decision);
    var p, w := Staged(sc), World(Stage(0, false), false, []);
    StagedLibrary(sc);
    PlainCaseIsValid(None, tc.denyWhen, tc.expected, sc.library);
    ValidIsSound(sc.library, tc);
    NoPreflights(tc);
    OpenScriptReadsTwice(decision);
    StagedIsHonest(sc);
    RunWithoutSetup(p, tc, w);
    WaveringRun(sc, tc, 0, w);
    InconsistentIfParted(tc, RunBound(p, tc, w).1, 0);
    assert LastExpected(tc.expected, "x") == Some(ExpectedAccess("x", decision, []));
  }
}
