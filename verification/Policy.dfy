/** Binding a policy's roles to identities: the separate verifier and the expectations.
    Whatever compiles meets the precondition of the engine's agreement results. */
module Policy {
  import opened Basics
  import opened Model
  import opened Server
  import opened Validation
  import opened Engine
  import opened Runs
  import opened RunResults
  import opened Agreement
  import opened Disagreement
  import opened CaseAgreement
  import Dotted

  /** The text given for each role, what such texts mean, and the response rules of each role. */
  datatype Rules = Rules(roles: map<string, string>, decide: string -> Option<AccessDecision>,
      assertions: string -> seq<ResponseAssertion>)

  // ----- The verifier -----

  function Others(ids: seq<Identity>, role: string): seq<Identity> {
    if ids == [] then []
    else Others(ids[..|ids| - 1], role) + if ids[|ids| - 1].role != role then [ids[|ids| - 1]] else []
  }

  ghost predicate OnlyOne(ids: seq<Identity>, role: string, k: nat) {
    k < |ids| && ids[k].role == role && forall i :: 0 <= i < |ids| && ids[i].role == role ==> i == k
  }

  /** The one identity with the verifier's role reads state; the others perform the request. */
  method SplitVerifier(rules: Rules, role: string, ids: seq<Identity>) returns (r: Option<(seq<Identity>, Identity)>)
    ensures r.Some? <==> role != "" && role !in rules.roles && exists k :: OnlyOne(ids, role, k)
    ensures r.Some? ==> r.value.0 == Others(ids, role) && r.value.1.role == role && r.value.1 in ids
  {
    if role == "" || role in rules.roles {
      return None;
    }
    var executed: seq<Identity>, verifier: Option<Identity> := [], None;
    ghost var at := 0;
    for i := 0 to |ids|
      invariant executed == Others(ids[..i], role)
      invariant verifier.None? ==> forall k :: 0 <= k < i ==> ids[k].role != role
      invariant verifier.Some? ==> 0 <= at < i && verifier.value == ids[at] && OnlyOne(ids[..i], role, at)
    {
      assert ids[..i + 1][..i] == ids[..i];
      if ids[i].role != role {
        executed := executed + [ids[i]];
        continue;
      }
      if verifier.Some? {
        assert ids[at] == ids[..i][at];
        assert forall k :: OnlyOne(ids, role, k) ==> at == k && i == k;
        return None;
      }
      verifier, at := Some(ids[i]), i;
      assert forall k :: 0 <= k < i ==> ids[..i + 1][k] == ids[k];
    }
    assert ids[..|ids|] == ids;
    if verifier.None? {
      return None;
    }
    assert OnlyOne(ids, role, at);
    return Some((executed, verifier.value));
  }

  lemma {:induction false} OthersMembers(ids: seq<Identity>, role: string)
    ensures forall id :: id in Others(ids, role) <==> id in ids && id.role != role
  {
    if ids != [] {
      OthersMembers(ids[..|ids| - 1], role);
      assert ids == ids[..|ids| - 1] + [ids[|ids| - 1]];
    }
  }

  // ----- The expectations -----

  predicate Expects(rules: Rules, id: Identity) {
    id.role in rules.roles && rules.decide(rules.roles[id.role]).Some?
  }

  function ExpectationOf(rules: Rules, id: Identity): ExpectedAccess
    requires Expects(rules, id)
  {
    ExpectedAccess(id.id, rules.decide(rules.roles[id.role]).value, rules.assertions(id.role))
  }

  /** One entry per identity, in the order they are bound. */
  ghost predicate Expectations(rules: Rules, ids: seq<Identity>, expected: seq<ExpectedAccess>) {
    && |expected| == |ids|
    && forall i :: 0 <= i < |ids| ==>
         && Expects(rules, ids[i])
         && expected[i].identityId == ids[i].id
         && Some(expected[i].decision) == rules.decide(rules.roles[ids[i].role])
         && expected[i].assertions == rules.assertions(ids[i].role)
  }

  method CompileExpectations(rules: Rules, ids: seq<Identity>) returns (r: Option<seq<ExpectedAccess>>)
    ensures r.Some? <==> forall i :: 0 <= i < |ids| ==> Expects(rules, ids[i])
    ensures r.Some? ==> Expectations(rules, ids, r.value)
  {
    var expected: seq<ExpectedAccess> := [];
    for i := 0 to |ids|
      invariant |expected| == i
      invariant forall k :: 0 <= k < i ==> Expects(rules, ids[k]) && expected[k] == ExpectationOf(rules, ids[k])
    {
      var id := ids[i];
      if id.role !in rules.roles {
        return None;
      }
      var decision := rules.decide(rules.roles[id.role]);
      if decision.None? {
        return None;
      }
      expected := expected + [ExpectedAccess(id.id, decision.value, rules.assertions(id.role))];
    }
    return Some(expected);
  }

  /** Compiled expectations are unambiguous exactly when the bound identities are distinct, and
      then every identity finds its own. */
  lemma CompiledIsUnambiguous(rules: Rules, tc: TestCase)
    requires Expectations(rules, tc.identities, tc.expected)
    ensures UniqueExpectations(tc) <==> DistinctIdentities(tc.identities)
    ensures UniqueExpectations(tc) ==>
      forall i :: 0 <= i < |tc.identities| ==>
        DecisionFor(tc, tc.identities[i].id) == Some(ExpectationOf(rules, tc.identities[i]).decision)
  {
    assert forall i :: 0 <= i < |tc.identities| ==> tc.expected[i].identityId == tc.identities[i].id;
    if UniqueExpectations(tc) {
      forall i | 0 <= i < |tc.identities|
        ensures ExpectedFor(tc.expected, tc.identities[i].id) == Some(tc.expected[i])
      {
        var ea := ExpectedFor(tc.expected, tc.identities[i].id);
        assert tc.expected[i] in tc.expected;
        var k :| 0 <= k < |tc.expected| && tc.expected[k] == ea.value;
        assert k == i;
      }
    }
  }

  lemma SoundIsDistinct(tc: TestCase)
    requires Sound(tc)
    ensures DistinctIdentities(tc.identities)
  {
  }

  /** Some preflight's fields clash, or no identity judged by the status line meets an open condition. */
  ghost predicate NeverWavers(text: Dotted.Text, tc: TestCase) {
    !PreflightsCompatible(tc) || forall i :: 0 <= i < |tc.identities| ==> !Wavering(text, tc, tc.identities[i].id)
  }

  lemma CompiledIsParted(text: Dotted.Text, rules: Rules, tc: TestCase)
    requires Expectations(rules, tc.identities, tc.expected) && DistinctIdentities(tc.identities)
    ensures NeverParted(text, tc) <==> NeverWavers(text, tc)
  {
    hide UniqueExpectations, Expectations, Distinguishable, DecisionFor, LastDecisionFor, Wavering,
         PreflightsCompatible;
    CompiledIsUnambiguous(rules, tc);
    UniqueIsCoherent(tc);
    forall i | 0 <= i < |tc.identities|
      ensures !Distinguishable(tc, tc.identities[i].id)
    {
      UniqueIsIndistinguishable(tc, tc.identities[i].id);
    }
  }

  /** Main result: for a case compiled from a policy, findings and assessments of every finished run
      agree unless its deny condition can be read in two ways; nothing is asked of its expectations. */
  lemma CompiledRunsAgree<S(!new)>(p: Platform<S>, rules: Rules, tc: TestCase, s: S, cancelled: bool)
    requires Expectations(rules, tc.identities, tc.expected) && HonestErrors(p) && NeverWavers(p.library.text, tc)
    requires Run(p, tc, World(s, cancelled, [])).1.Finished?
    ensures Consistent(tc, Run(p, tc, World(s, cancelled, [])).1.result)
  {
    hide Run, Consistent, Sound, HonestErrors, Valid, Expectations, NeverParted, NeverWavers;
    var _, _ := RunsAreBound(p, tc, s, cancelled);
    assert DistinctIdentities(tc.identities) by { ValidIsSound(p.library, tc); SoundIsDistinct(tc); }
    CompiledIsParted(p.library.text, rules, tc);
    RunsAgree(p, tc, s, cancelled);
  }

  /** The exact condition for a valid compiled case. */
  lemma CompiledAgreementIff(lib: Library, rules: Rules, tc: TestCase)
    requires Valid(lib, tc) && Expectations(rules, tc.identities, tc.expected)
    ensures (forall p: Platform<Stage>, s: Stage, cancelled: bool ::
               && HonestErrors(p) && SameText(p.library, lib)
               && Run(p, tc, World(s, cancelled, [])).1.Finished?
               ==> Consistent(tc, Run(p, tc, World(s, cancelled, [])).1.result))
      <==> !CanFinish(lib, tc) || NeverWavers(lib.text, tc)
  {
    hide Run, Consistent, Sound, HonestErrors, Valid, Expectations, NeverParted, NeverWavers, CanFinish;
    assert DistinctIdentities(tc.identities) by { ValidIsSound(lib, tc); SoundIsDistinct(tc); }
    CompiledIsParted(lib.text, rules, tc);
    ValidAgreementIff(lib, tc);
  }
}
