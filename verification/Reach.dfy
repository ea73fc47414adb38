/** What a verifier's reads can ever establish: a pointer reaches a value exactly when the decoder's
    depth limit lets a document hold that value at its place. */
module Reach {
  import opened Basics
  import opened Json
  import opened Model
  import opened Server
  import opened Verify
  import opened Validation
  import opened Attempts
  import opened Disagreement
  import opened Profiles

  const LIMIT := 64

  // ----- Depth of documents and of their values -----

  /** An acceptable document at a depth means a value that keeps within the limit from there. */
  lemma {:induction false} AcceptableIsShallow(d: Doc, depth: nat)
    requires Acceptable(ASSERTION_MODE, d, depth)
    ensures Shallow(Meaning(ASSERTION_MODE, d), LIMIT - depth)
    decreases d
  {
    match d
    case Scalar(t) =>
    case ArrayDoc(items) =>
      ItemsMeaningAt(ASSERTION_MODE, items);
      forall i | 0 <= i < |items|
        ensures Shallow(Meaning(ASSERTION_MODE, items[i]), LIMIT - (depth + 1))
      {
        AcceptableIsShallow(items[i], depth + 1);
      }
    case ObjectDoc(members) =>
      MembersMeaningAt(ASSERTION_MODE, members, map[]);
      forall i | 0 <= i < |members|
        ensures Shallow(Meaning(ASSERTION_MODE, members[i].value), LIMIT - (depth + 1))
      {
        AcceptableIsShallow(members[i].value, depth + 1);
      }
  }

  lemma ShallowParts(d: Doc, here: nat, n: int)
    requires Acceptable(ASSERTION_MODE, d, here) && Shallow(Meaning(ASSERTION_MODE, d), n)
    ensures n >= 0
    ensures d.ArrayDoc? ==>
      forall i :: 0 <= i < |d.items| ==> Shallow(Meaning(ASSERTION_MODE, d.items[i]), n - 1)
    ensures d.ObjectDoc? ==>
      forall i :: 0 <= i < |d.members| ==> Shallow(Meaning(ASSERTION_MODE, d.members[i].value), n - 1)
  {
    match d
    case Scalar(t) =>
    case ArrayDoc(items) =>
      ItemsMeaningAt(ASSERTION_MODE, items);
      forall i | 0 <= i < |items|
        ensures Shallow(Meaning(ASSERTION_MODE, items[i]), n - 1)
      {
        assert Shallow(ItemsMeaning(ASSERTION_MODE, items)[i], n - 1);
      }
    case ObjectDoc(members) =>
      MembersMeaningAt(ASSERTION_MODE, members, map[]);
      forall i | 0 <= i < |members|
        ensures Shallow(Meaning(ASSERTION_MODE, members[i].value), n - 1)
      {
        assert Shallow(MembersMeaning(ASSERTION_MODE, members, map[])[members[i].key], n - 1);
      }
  }

  /** The other way: a document accepted somewhere is accepted wherever its value fits. */
  lemma {:induction false} ShallowIsAcceptable(d: Doc, here: nat, depth: nat)
    requires Acceptable(ASSERTION_MODE, d, here) && Shallow(Meaning(ASSERTION_MODE, d), LIMIT - depth)
    ensures Acceptable(ASSERTION_MODE, d, depth)
    decreases d
  {
    hide Shallow, Meaning;
    ShallowParts(d, here, LIMIT - depth);
    match d
    case Scalar(t) =>
    case ArrayDoc(items) =>
      forall i | 0 <= i < |items|
        ensures Acceptable(ASSERTION_MODE, items[i], depth + 1)
      {
        ShallowIsAcceptable(items[i], here + 1, depth + 1);
      }
    case ObjectDoc(members) =>
      forall i | 0 <= i < |members|
        ensures Acceptable(ASSERTION_MODE, members[i].value, depth + 1)
      {
        ShallowIsAcceptable(members[i].value, here + 1, depth + 1);
      }
  }

  /** Following a pointer uses up one level per token. */
  lemma {:induction false} SelectedIsShallow(v: Value, n: int, tokens: seq<string>)
    requires Shallow(v, n) && Pointer.PointerValueOf(v, tokens).Some?
    ensures Shallow(Pointer.PointerValueOf(v, tokens).value, n - |tokens|)
    decreases |tokens|
  {
    if tokens != [] {
      var child := Pointer.Child(v, tokens[0]).value;
      assert Shallow(child, n - 1);
      SelectedIsShallow(child, n - 1, tokens[1..]);
    }
  }

  lemma ShallowIsNat(v: Value, n: int)
    requires Shallow(v, n)
    ensures n >= 0
  {
  }

  // ----- A document that holds a value at a pointer -----

  function Nested(tokens: seq<string>, d: Doc): Doc {
    if tokens == [] then d else ObjectDoc([Member(tokens[0], Nested(tokens[1..], d))])
  }

  lemma {:induction false} NestedHolds(tokens: seq<string>, d: Doc, depth: nat)
    requires Acceptable(ASSERTION_MODE, d, depth + |tokens|) && depth + |tokens| <= LIMIT
    ensures Acceptable(ASSERTION_MODE, Nested(tokens, d), depth)
    ensures var whole := Meaning(ASSERTION_MODE, Nested(tokens, d));
      Pointer.PointerValueOf(whole, tokens) == Some(Meaning(ASSERTION_MODE, d))
    decreases |tokens|
  {
    if tokens != [] {
      var inner := Nested(tokens[1..], d);
      NestedHolds(tokens[1..], d, depth + 1);
      var members := [Member(tokens[0], inner)];
      MembersMeaningAt(ASSERTION_MODE, members, map[]);
      assert members[0].key == tokens[0] && members[0].value == inner;
      var v := Meaning(ASSERTION_MODE, Nested(tokens, d));
      assert v == Object(MembersMeaning(ASSERTION_MODE, members, map[]));
      assert Pointer.Child(v, tokens[0]) == Some(Meaning(ASSERTION_MODE, inner));
    }
  }

  /** The response whose body is this document. */
  function Showing(d: Doc): Execution {
    FINE.(body := Raw(true, Print(d)))
  }

  lemma ShowingDecodes(d: Doc)
    requires Acceptable(ASSERTION_MODE, d, 0)
    ensures Decode(Showing(d).body) == Some(Meaning(ASSERTION_MODE, d))
  {
    assert ParseAll(ASSERTION_MODE, Showing(d).body) == Some(Meaning(ASSERTION_MODE, d)) by {
      ParseAllExact(ASSERTION_MODE, Showing(d).body, Meaning(ASSERTION_MODE, d));
    }
  }

  lemma DecodedIsShallow(raw: Raw)
    requires Decode(raw).Some?
    ensures Shallow(Decode(raw).value, LIMIT)
    ensures exists d :: Acceptable(ASSERTION_MODE, d, 0) && Meaning(ASSERTION_MODE, d) == Decode(raw).value
  {
    var v := Decode(raw).value;
    ParseAllExact(ASSERTION_MODE, raw, v);
    var d :| Print(d) == raw.tokens && Acceptable(ASSERTION_MODE, d, 0) && Meaning(ASSERTION_MODE, d) == v;
    AcceptableIsShallow(d, 0);
  }

  // ----- Which verdicts a case can reach -----

  /** What validation establishes about pointer and target. */
  ghost predicate Readable(wv: WriteVerification) {
    && SoundStrategy(wv) && Pointer.Tokens(wv.pointer).Some?
    && (HasTarget(wv) ==> wv.pointer != "" && Decode(wv.changedTo).Some?)
    && (wv.strategy.Changed? && wv.pointer == "" ==> wv.afterStatus != [])
  }

  lemma ValidIsReadable(lib: Library, tc: TestCase)
    requires tc.verification.Some? && ValidVerification(lib, tc, tc.verification.value)
    ensures Readable(tc.verification.value)
  {
    hide Pointer.Tokens, Decode, ValidStep, ValidCredential;
  }

  /** The depth limit leaves room for something at the pointer's place. */
  ghost predicate PathFits(wv: WriteVerification) {
    |TokensOrNone(wv.pointer)| <= LIMIT
  }

  ghost predicate TargetFits(wv: WriteVerification) {
    HasTarget(wv) ==> Shallow(Target(wv), LIMIT - |TokensOrNone(wv.pointer)|)
  }

  function Flag(b: bool): Doc {
    Scalar(BoolToken(b))
  }

  /** A flag different from the target. */
  function Other(wv: WriteVerification): bool {
    Target(wv) != Bool(true)
  }

  function Shown(wv: WriteVerification, d: Doc): Execution {
    Showing(Nested(TokensOrNone(wv.pointer), d))
  }

  lemma ReadShown(wv: WriteVerification, d: Doc, reread: bool)
    requires Readable(wv) && PathFits(wv) && Acceptable(ASSERTION_MODE, d, |TokensOrNone(wv.pointer)|)
    ensures Interpret(wv, Shown(wv, d), reread)
         == Reading(Observed(200, if wv.pointer == "" then None else Some(Meaning(ASSERTION_MODE, d))), NoReason)
  {
    hide Pointer.PointerValueOf, Pointer.Tokens, Decode, Nested, Acceptable, Meaning;
    var tokens := TokensOrNone(wv.pointer);
    NestedHolds(tokens, d, 0);
    ShowingDecodes(Nested(tokens, d));
    ReadingMeans(wv, Shown(wv, d), reread);
  }

  lemma ReadMissing(wv: WriteVerification, reread: bool)
    requires Readable(wv) && !wv.strategy.Changed?
    ensures Interpret(wv, FINE.(status := 404), reread) == Reading(Observed(404, None), NoReason)
  {
    hide Pointer.PointerValueOf, Pointer.Tokens, Decode;
  }

  lemma FlagFits(b: bool, depth: nat)
    requires depth <= LIMIT
    ensures Acceptable(ASSERTION_MODE, Flag(b), depth) && Meaning(ASSERTION_MODE, Flag(b)) == Bool(b)
  {
  }

  lemma UsableFits(wv: WriteVerification, ex: Execution, reread: bool)
    requires Readable(wv) && Interpret(wv, ex, reread).reason.NoReason?
    ensures var st := Interpret(wv, ex, reread).state;
      && (Success(st.status) ==> PathFits(wv))
      && (st.value.Some? ==> Shallow(st.value.value, LIMIT - |TokensOrNone(wv.pointer)|) && PathFits(wv))
  {
    hide Pointer.PointerValueOf, Pointer.Tokens, Decode;
    ReadingMeans(wv, ex, reread);
    var tokens := TokensOrNone(wv.pointer);
    if wv.pointer == "" {
      RootPointer();
    } else if Success(ex.status) {
      var doc := Decode(ex.body).value;
      DecodedIsShallow(ex.body);
      SelectedIsShallow(doc, LIMIT, tokens);
      ShallowIsNat(Pointer.PointerValueOf(doc, tokens).value, LIMIT - |tokens|);
    }
  }

  lemma RootPointer()
    ensures TokensOrNone("") == []
  {
  }

  ghost predicate CanDeny(wv: WriteVerification) {
    !wv.environment.Unknown? && (wv.strategy.Created? || PathFits(wv))
  }

  ghost predicate CanAllow(wv: WriteVerification) {
    !wv.environment.Unknown? && PathFits(wv) && TargetFits(wv)
  }

  lemma PossibleOnlyIf(wv: WriteVerification)
    requires Readable(wv)
    ensures Possible(wv, Denied) ==> CanDeny(wv)
    ensures Possible(wv, Allowed) ==> CanAllow(wv)
  {
    hide Interpret, Pointer.Tokens, Decode, PathFits;
    forall before | Baselined(wv, before)
      ensures wv.strategy.Created? || PathFits(wv)
    {
      UsableFits(wv, before, false);
    }
    forall before, after | Baselined(wv, before) && ShowsTransition(wv, before, after)
      ensures PathFits(wv) && TargetFits(wv)
    {
      UsableFits(wv, before, false);
      UsableFits(wv, after, true);
    }
  }

  lemma DenialReached(wv: WriteVerification)
    requires Readable(wv) && CanDeny(wv)
    ensures Possible(wv, Denied)
  {
    hide Interpret, Pointer.Tokens, Decode, PathFits, Readable;
    var before := Baseline0(wv);
    BaselineShown(wv);
    assert Baselined(wv, before);
  }

  /** A usable first response for the strategy. */
  function Baseline0(wv: WriteVerification): Execution {
    if wv.strategy.Created? then FINE.(status := 404) else Shown(wv, Flag(Other(wv)))
  }

  lemma BaselineShown(wv: WriteVerification)
    requires Readable(wv) && (wv.strategy.Created? || PathFits(wv))
    ensures Baselined(wv, Baseline0(wv))
    ensures Interpret(wv, Baseline0(wv), false).state
         == if wv.strategy.Created? then Observed(404, None)
            else Observed(200, if wv.pointer == "" then None else Some(Bool(Other(wv))))
  {
    hide Interpret, Pointer.Tokens, Decode, Nested, Acceptable, Meaning;
    if wv.strategy.Created? {
      ReadMissing(wv, false);
    } else {
      FlagFits(Other(wv), |TokensOrNone(wv.pointer)|);
      ReadShown(wv, Flag(Other(wv)), false);
    }
  }

  lemma AllowReached(wv: WriteVerification)
    requires Readable(wv) && CanAllow(wv)
    ensures Possible(wv, Allowed)
  {
    hide Interpret, Pointer.Tokens, Decode, Nested, Acceptable, Meaning, PathFits, Shallow, Baselined;
    var before := Baseline0(wv);
    BaselineShown(wv);
    var tokens := TokensOrNone(wv.pointer);
    var after := FINE;
    if HasTarget(wv) {
      after := TargetShown(wv);
    } else if wv.strategy.Created? || (wv.strategy.Changed? && wv.afterStatus == []) {
      assert |tokens| <= LIMIT by { assert PathFits(wv); FitsIs(wv); }
      FlagFits(!Other(wv), |tokens|);
      after := Shown(wv, Flag(!Other(wv)));
      ReadShown(wv, Flag(!Other(wv)), true);
    } else if wv.strategy.Changed? {
      after := FINE.(status := wv.afterStatus[0]);
      ReadReviewed(wv);
    } else {
      after := FINE.(status := 404);
      ReadMissing(wv, true);
    }
    assert ShowsTransition(wv, before, after);
  }

  lemma FitsIs(wv: WriteVerification)
    ensures PathFits(wv) <==> |TokensOrNone(wv.pointer)| <= LIMIT
  {
  }

  lemma ReadReviewed(wv: WriteVerification)
    requires Readable(wv) && wv.afterStatus != []
    ensures Interpret(wv, FINE.(status := wv.afterStatus[0]), true) == Reading(Observed(wv.afterStatus[0], None),
      NoReason)
  {
    hide Pointer.PointerValueOf, Pointer.Tokens, Decode;
  }

  lemma TargetShown(wv: WriteVerification) returns (after: Execution)
    requires Readable(wv) && HasTarget(wv) && PathFits(wv) && TargetFits(wv)
    ensures Interpret(wv, after, true) == Reading(Observed(200, Some(Target(wv))), NoReason)
  {
    hide Interpret, Pointer.Tokens, Decode, Nested, Acceptable, Meaning, Shallow;
    DecodedIsShallow(wv.changedTo);
    var d :| Acceptable(ASSERTION_MODE, d, 0) && Meaning(ASSERTION_MODE, d) == Decode(wv.changedTo).value;
    ShallowIsAcceptable(d, 0, |TokensOrNone(wv.pointer)|);
    ReadShown(wv, d, true);
    after := Shown(wv, d);
  }

  /** Which verdicts any responses could lead to, read off the case: the environment is known, and
      the decoder's depth limit leaves room for a value, or for the target, at the pointer. */
  lemma PossibleIff(wv: WriteVerification)
    requires Readable(wv)
    ensures Possible(wv, Denied) <==> CanDeny(wv)
    ensures Possible(wv, Allowed) <==> CanAllow(wv)
  {
    hide Possible, CanDeny, CanAllow, Readable;
    PossibleOnlyIf(wv);
    if CanDeny(wv) {
      DenialReached(wv);
    }
    if CanAllow(wv) {
      AllowReached(wv);
    }
  }
}
