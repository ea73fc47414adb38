/** The engine and the request guard together: no run is ever refused by a guard built
    from the run's own worst-case projection. */
module Composition {
  import opened Basics
  import opened Json
  import opened Model
  import opened Server
  import opened Substitution
  import opened Verify
  import opened Validation
  import opened Setup
  import opened Engine
  import opened Attempts
  import opened Runs
  import opened RunTheorems
  import opened RunResults
  import opened Guard
  import opened Transparency

  // ----- The worst-case projection of a case -----

  function SetupDispatches(tc: TestCase, i: nat): seq<Dispatch>
    requires i <= |tc.setup|
    decreases |tc.setup| - i
  {
    if i == |tc.setup| then []
    else
      var actor := StepActor(tc, tc.setup[i], i);
      [Dispatch(Some(SetupPhase), if actor.Some? then actor.value.id else tc.setup[i].actor, tc.setup[i].request, 1)]
      + SetupDispatches(tc, i + 1)
  }

  function ProbeDispatches(ids: seq<Identity>): seq<Dispatch> {
    if ids == [] then []
    else
      (if ids[0].preflight.Some? then [Dispatch(Some(PreflightPhase), ids[0].id, PreflightCall(ids[0]).request, 1)]
        else [])
      + ProbeDispatches(ids[1..])
  }

  /** One request for the identity; if it is verified also three views and a declared reset. */
  function IdentityDispatches(lib: Library, tc: TestCase, id: string): seq<Dispatch> {
    [Dispatch(Some(ResourcePhase), id, TestRequest(tc), 1)]
    + if !IsVerified(tc, id) then []
      else
        var wv := tc.verification.value;
        [Dispatch(Some(VerificationPhase), wv.identity.id, ReaderCall(lib, wv).request, 3)]
        + if wv.reset.None? then []
          else [Dispatch(Some(ResetPhase), ResetActor(tc, wv.reset.value).id, wv.reset.value.request, 1)]
  }

  function AllDispatches(lib: Library, tc: TestCase, ids: seq<Identity>): seq<Dispatch> {
    if ids == [] then [] else IdentityDispatches(lib, tc, ids[0].id) + AllDispatches(lib, tc, ids[1..])
  }

  function Projection(lib: Library, tc: TestCase): seq<Dispatch> {
    SetupDispatches(tc, 0) + ProbeDispatches(PreflightIdentities(tc)) + AllDispatches(lib, tc, tc.identities)
  }

  // ----- Counting requests against budgets -----

  function KeyOfCall(fold: char -> char, c: Call): Option<Key> {
    KeyOf(fold, Some(c.phase), c.actor.id, c.request)
  }

  ghost function Tally(fold: char -> char, calls: seq<Call>, key: Key): nat {
    if calls == [] then 0
    else Tally(fold, calls[..|calls| - 1], key) + if KeyOfCall(fold, calls[|calls| - 1]) == Some(key) then 1 else 0
  }

  /** A plan's dispatches approve at least these requests, as often as they occur. */
  ghost predicate Covered(fold: char -> char, calls: seq<Call>, ds: seq<Dispatch>) {
    && NonNegative(ds)
    && |calls| <= SumMax(ds)
    && (forall key: Key :: Tally(fold, calls, key) <= Budget(ds, key, fold))
    && ((forall d :: d in ds ==> DispatchKey(d, fold).Some?) ==> forall c :: c in calls ==> KeyOfCall(fold, c).Some?)
  }

  lemma {:induction false} TallyConcat(fold: char -> char, a: seq<Call>, b: seq<Call>, key: Key)
    ensures Tally(fold, a + b, key) == Tally(fold, a, key) + Tally(fold, b, key)
  {
    hide KeyOfCall;
    if b == [] {
      assert a + b == a;
    } else {
      var n := |b| - 1;
      TallyConcat(fold, a, b[..n], key);
      assert (a + b)[..|a + b| - 1] == a + b[..n];
    }
  }

  lemma {:induction false} SumMaxConcat(a: seq<Dispatch>, b: seq<Dispatch>)
    ensures SumMax(a + b) == SumMax(a) + SumMax(b)
  {
    if b == [] {
      assert a + b == a;
    } else {
      var n := |b| - 1;
      SumMaxConcat(a, b[..n]);
      assert (a + b)[..|a + b| - 1] == a + b[..n];
    }
  }

  lemma BudgetLast(ds: seq<Dispatch>, d: Dispatch, key: Key, fold: char -> char)
    ensures Budget(ds + [d], key, fold) == Budget(ds, key, fold) + if DispatchKey(d, fold) == Some(key) then d.max
      else 0
  {
    hide DispatchKey;
    var all := ds + [d];
    assert all[..|ds|] == ds && Maxima(all)[..|ds|] == Maxima(ds);
  }

  lemma {:induction false} BudgetConcat(a: seq<Dispatch>, b: seq<Dispatch>, key: Key, fold: char -> char)
    ensures Budget(a + b, key, fold) == Budget(a, key, fold) + Budget(b, key, fold)
  {
    hide DispatchKey, Budget;
    if b == [] {
      assert a + b == a;
      assert Budget([], key, fold) == 0 by { NoBudget(key, fold); }
    } else {
      var n := |b| - 1;
      BudgetConcat(a, b[..n], key, fold);
      BudgetLast(a + b[..n], b[n], key, fold);
      BudgetLast(b[..n], b[n], key, fold);
      assert (a + b[..n]) + [b[n]] == a + b && b[..n] + [b[n]] == b;
    }
  }

  lemma NoBudget(key: Key, fold: char -> char)
    ensures Budget([], key, fold) == 0
  {
  }

  lemma CoveredConcat(fold: char -> char, a: seq<Call>, ds: seq<Dispatch>, b: seq<Call>, es: seq<Dispatch>)
    requires Covered(fold, a, ds) && Covered(fold, b, es)
    ensures Covered(fold, a + b, ds + es)
  {
    hide KeyOfCall, DispatchKey, Budget, Tally, SumMax;
    SumMaxConcat(ds, es);
    forall key: Key
      ensures Tally(fold, a + b, key) <= Budget(ds + es, key, fold)
    {
      TallyConcat(fold, a, b, key);
      BudgetConcat(ds, es, key, fold);
    }
    if forall d :: d in ds + es ==> DispatchKey(d, fold).Some? {
      assert forall d :: d in ds ==> d in ds + es;
      assert forall d :: d in es ==> d in ds + es;
    }
  }

  lemma CoveredNothing(fold: char -> char, ds: seq<Dispatch>)
    requires NonNegative(ds)
    ensures Covered(fold, [], ds)
  {
    hide DispatchKey;
    SumMaxIsSum(ds);
    SumWithin(Maxima(ds), Maxima(ds));
    forall key: Key
      ensures 0 <= Budget(ds, key, fold)
    {
      RoomIsBudget(ds, Maxima(ds), Maxima(ds), key, fold);
    }
  }

  ghost predicate Allows(d: Dispatch, c: Call) {
    d.phase == Some(c.phase) && d.identityId == c.actor.id && d.request == c.request
  }

  /** n requests of the kind one dispatch approves n times. */
  lemma {:induction false} CoveredSame(fold: char -> char, calls: seq<Call>, d: Dispatch)
    requires |calls| <= d.max && forall i :: 0 <= i < |calls| ==> Allows(d, calls[i])
    ensures Covered(fold, calls, [d])
  {
    hide KeyOf;
    assert [d][..0] == [];
    forall key: Key
      ensures Tally(fold, calls, key) <= Budget([d], key, fold)
    {
      TallySame(fold, calls, d, key);
      BudgetLast([], d, key, fold);
      assert [] + [d] == [d];
      NoBudget(key, fold);
    }
    assert SumMax([d]) == SumMax([d][..0]) + d.max;
    assert d in [d];
    forall c | c in calls && DispatchKey(d, fold).Some?
      ensures KeyOfCall(fold, c).Some?
    {
      var i :| 0 <= i < |calls| && calls[i] == c;
      assert Allows(d, calls[i]);
    }
  }

  lemma {:induction false} TallySame(fold: char -> char, calls: seq<Call>, d: Dispatch, key: Key)
    requires forall i :: 0 <= i < |calls| ==> Allows(d, calls[i])
    ensures Tally(fold, calls, key) == if DispatchKey(d, fold) == Some(key) then |calls| else 0
  {
    hide KeyOf;
    if calls != [] {
      TallySame(fold, calls[..|calls| - 1], d, key);
    }
  }

  // ----- One identity -----

  function CallsOf<S>(events: seq<Event<S>>): seq<Call> {
    seq(|events|, i requires 0 <= i < |events| => events[i].call)
  }

  function Cap(n: nat, m: nat): nat {
    if n < m then n else m
  }

  /** The requests of a block, split into resets, baseline views, the write and the readback. */
  lemma BlockCalls<S>(p: Platform<S>, tc: TestCase, id: Identity, block: seq<Event<S>>)
    requires BlockOk(p, tc, id, block) && IsVerified(tc, id.id)
    ensures var wv, calls, r := tc.verification.value, CallsOf(block), ResetCount(tc.verification.value);
      var (a, b, c) := (Cap(|calls|, r), Cap(|calls|, r + 2), Cap(|calls|, r + 3));
      && |calls| <= r + 4
      && (forall k :: 0 <= k < a ==>
        wv.reset.Some? && calls[k] == Call(ResetPhase, ResetActor(tc, wv.reset.value), wv.reset.value.request))
      && (forall k :: a <= k < b ==> calls[k] == ReaderCall(p.library, wv))
      && (forall k :: b <= k < c ==> calls[k] == Call(ResourcePhase, id, TestRequest(tc)))
      && (forall k :: c <= k < |calls| ==> calls[k] == ReaderCall(p.library, wv))
  {
    var wv := tc.verification.value;
    forall k | 0 <= k < |block|
      ensures CallsOf(block)[k] == AttemptCall(p.library, tc, wv, id, TestRequest(tc), k)
    {
      assert block[k].call == AttemptCall(p.library, tc, wv, id, TestRequest(tc), 0 + k);
    }
  }

  lemma CoveredBlock<S>(p: Platform<S>, fold: char -> char, tc: TestCase, id: Identity, block: seq<Event<S>>)
    requires BlockOk(p, tc, id, block)
    ensures Covered(fold, CallsOf(block), IdentityDispatches(p.library, tc, id.id))
  {
    hide KeyOf, Budget, BlockOk, TestRequest, Covered, ResetActor, VerifierMethod;
    var write := Dispatch(Some(ResourcePhase), id.id, TestRequest(tc), 1);
    if IsVerified(tc, id.id) {
      var wv, calls, r := tc.verification.value, CallsOf(block), ResetCount(tc.verification.value);
      BlockCalls(p, tc, id, block);
      var a, b, c := Cap(|calls|, r), Cap(|calls|, r + 2), Cap(|calls|, r + 3);
      var read := Dispatch(Some(VerificationPhase), wv.identity.id, ReaderCall(p.library, wv).request, 3);
      var resets := if wv.reset.None? then []
        else [Dispatch(Some(ResetPhase), ResetActor(tc, wv.reset.value).id, wv.reset.value.request, 1)];
      var views := calls[a..b] + calls[c..];
      CoveredSame(fold, calls[b..c], write);
      forall i | 0 <= i < |views|
        ensures views[i] == ReaderCall(p.library, wv)
      {
        assert views[i] == if i < b - a then calls[a + i] else calls[c + (i - (b - a))];
      }
      CoveredSame(fold, views, read);
      if wv.reset.Some? {
        CoveredSame(fold, calls[..a], resets[0]);
        assert resets == [resets[0]];
      } else {
        CoveredNothing(fold, []);
        assert calls[..a] == [];
      }
      CoveredConcat(fold, views, [read], calls[..a], resets);
      CoveredConcat(fold, calls[b..c], [write], views + calls[..a], [read] + resets);
      Regroup(fold, calls, a, b, c, [write] + ([read] + resets));
    } else {
      UnverifiedCalls(p, tc, id, block);
      CoveredSame(fold, CallsOf(block), write);
      assert [write] + [] == [write];
    }
  }

  /** Only how often a request occurs matters, not where. */
  lemma Regroup(fold: char -> char, calls: seq<Call>, a: nat, b: nat, c: nat, ds: seq<Dispatch>)
    requires a <= b <= c <= |calls|
    requires Covered(fold, calls[b..c] + ((calls[a..b] + calls[c..]) + calls[..a]), ds)
    ensures Covered(fold, calls, ds)
  {
    hide KeyOfCall, DispatchKey, Budget, SumMax, Tally;
    var mixed := calls[b..c] + ((calls[a..b] + calls[c..]) + calls[..a]);
    assert calls == (calls[..a] + calls[a..b]) + (calls[b..c] + calls[c..]);
    forall key: Key
      ensures Tally(fold, calls, key) == Tally(fold, mixed, key)
    {
      TallyConcat(fold, calls[b..c], (calls[a..b] + calls[c..]) + calls[..a], key);
      TallyConcat(fold, calls[a..b] + calls[c..], calls[..a], key);
      TallyConcat(fold, calls[a..b], calls[c..], key);
      TallyConcat(fold, calls[..a] + calls[a..b], calls[b..c] + calls[c..], key);
      TallyConcat(fold, calls[..a], calls[a..b], key);
      TallyConcat(fold, calls[b..c], calls[c..], key);
    }
    assert forall x :: x in calls ==> x in mixed;
  }

  lemma UnverifiedCalls<S>(p: Platform<S>, tc: TestCase, id: Identity, block: seq<Event<S>>)
    requires BlockOk(p, tc, id, block) && !IsVerified(tc, id.id)
    ensures CallsOf(block) == [Call(ResourcePhase, id, TestRequest(tc))]
  {
  }

  // ----- All identities -----

  /** Two plans that differ only in the order of their dispatches. */
  ghost predicate SamePlan(fold: char -> char, ds: seq<Dispatch>, es: seq<Dispatch>) {
    && SumMax(ds) == SumMax(es)
    && (forall key: Key :: Budget(ds, key, fold) == Budget(es, key, fold))
    && (forall d :: d in ds <==> d in es)
  }

  lemma SamePlanCovers(fold: char -> char, calls: seq<Call>, ds: seq<Dispatch>, es: seq<Dispatch>)
    requires Covered(fold, calls, ds) && SamePlan(fold, ds, es)
    ensures Covered(fold, calls, es)
  {
    hide KeyOfCall, DispatchKey, Budget, SumMax, Tally;
    forall i | 0 <= i < |es|
      ensures 0 <= es[i].max
    {
      assert es[i] in ds;
      var j :| 0 <= j < |ds| && ds[j] == es[i];
    }
  }

  lemma SamePlanStep(fold: char -> char, x: seq<Dispatch>, a: seq<Dispatch>, b: seq<Dispatch>, all: seq<Dispatch>)
    requires SamePlan(fold, a + b, all)
    ensures SamePlan(fold, (x + a) + b, x + all)
    ensures SamePlan(fold, a + (x + b), x + all)
  {
    hide DispatchKey, Budget, SumMax;
    SumMaxConcat(a, b);
    SumMaxConcat(x, all);
    SumMaxConcat(x, a);
    SumMaxConcat(x, b);
    SumMaxConcat(x + a, b);
    SumMaxConcat(a, x + b);
    forall key: Key
      ensures Budget((x + a) + b, key, fold) == Budget(x + all, key, fold) == Budget(a + (x + b), key, fold)
    {
      BudgetConcat(a, b, key, fold);
      BudgetConcat(x, all, key, fold);
      BudgetConcat(x, a, key, fold);
      BudgetConcat(x, b, key, fold);
      BudgetConcat(x + a, b, key, fold);
      BudgetConcat(a, x + b, key, fold);
    }
    forall d
      ensures d in (x + a) + b <==> d in x + all
      ensures d in a + (x + b) <==> d in x + all
    {
      assert d in all <==> d in a + b;
    }
  }

  lemma {:induction false} SelectPlan(fold: char -> char, lib: Library, tc: TestCase, ids: seq<Identity>)
    ensures SamePlan(fold,
      AllDispatches(lib, tc, Select(tc, ids, true)) + AllDispatches(lib, tc, Select(tc, ids, false)),
        AllDispatches(lib, tc, ids))
  {
    hide SamePlan, IdentityDispatches, DenyFirst;
    if ids == [] {
      SamePlanNothing(fold);
    } else {
      SelectPlan(fold, lib, tc, ids[1..]);
      var a, b := Select(tc, ids[1..], true), Select(tc, ids[1..], false);
      SamePlanStep(fold, IdentityDispatches(lib, tc, ids[0].id), AllDispatches(lib, tc, a), AllDispatches(lib, tc, b),
        AllDispatches(lib, tc, ids[1..]));
      assert ([ids[0]] + a)[1..] == a && ([ids[0]] + b)[1..] == b && [] + a == a && [] + b == b;
    }
  }

  lemma SamePlanNothing(fold: char -> char)
    ensures SamePlan(fold, [] + [], [])
  {
  }

  lemma {:induction false} DispatchesConcat(lib: Library, tc: TestCase, a: seq<Identity>, b: seq<Identity>)
    ensures AllDispatches(lib, tc, a + b) == AllDispatches(lib, tc, a) + AllDispatches(lib, tc, b)
  {
    hide IdentityDispatches;
    if a == [] {
      assert a + b == b;
    } else {
      DispatchesConcat(lib, tc, a[1..], b);
      assert (a + b)[0] == a[0] && (a + b)[1..] == a[1..] + b;
      Associates(IdentityDispatches(lib, tc, a[0].id), AllDispatches(lib, tc, a[1..]), AllDispatches(lib, tc, b));
    }
  }

  lemma OrderPlan(fold: char -> char, lib: Library, tc: TestCase)
    ensures SamePlan(fold, AllDispatches(lib, tc, ExecutionOrder(tc)), AllDispatches(lib, tc, tc.identities))
  {
    hide AllDispatches, Select, DispatchKey, Budget, SumMax;
    if tc.verification.Some? {
      SelectPlan(fold, lib, tc, tc.identities);
      DispatchesConcat(lib, tc, Select(tc, tc.identities, true), Select(tc, tc.identities, false));
    }
  }

  lemma CallsOfConcat<S>(a: seq<Event<S>>, b: seq<Event<S>>)
    ensures CallsOf(a + b) == CallsOf(a) + CallsOf(b)
  {
  }

  lemma {:induction false} CoveredBlocks<S>(p: Platform<S>, fold: char -> char, tc: TestCase, order: seq<Identity>,
      blocks: seq<seq<Event<S>>>)
    requires BlocksOk(p, tc, order, blocks)
    ensures Covered(fold, CallsOf(Flatten(blocks)), AllDispatches(p.library, tc, order))
  {
    hide BlockOk, Covered, IdentityDispatches, CallsOf;
    if order == [] {
      EmptyCalls<S>();
      CoveredNothing(fold, []);
    } else {
      CoveredBlock(p, fold, tc, order[0], blocks[0]);
      CoveredBlocks(p, fold, tc, order[1..], blocks[1..]);
      CallsOfConcat(blocks[0], Flatten(blocks[1..]));
      CoveredConcat(fold, CallsOf(blocks[0]), IdentityDispatches(p.library, tc, order[0].id),
                    CallsOf(Flatten(blocks[1..])), AllDispatches(p.library, tc, order[1..]));
    }
  }

  lemma EmptyCalls<S>()
    ensures CallsOf<S>([]) == []
  {
  }

  lemma {:induction false} DispatchesNonNegative(lib: Library, tc: TestCase, ids: seq<Identity>)
    ensures NonNegative(AllDispatches(lib, tc, ids))
  {
    if ids != [] {
      DispatchesNonNegative(lib, tc, ids[1..]);
      assert NonNegative(IdentityDispatches(lib, tc, ids[0].id));
    }
  }

  // ----- Setup and preflights -----

  lemma {:induction false} CoveredProbes<S>(fold: char -> char, ids: seq<Identity>,
      events: seq<Event<S>>, results: seq<PreflightResult>)
    requires ProbesOk(Probing(ids), events, results)
    ensures Covered(fold, CallsOf(events), ProbeDispatches(ids))
  {
    hide Covered, ProbeResult;
    if ids == [] {
      CoveredNothing(fold, []);
      assert CallsOf(events) == [];
    } else if ids[0].preflight.None? {
      assert [] + Probing(ids[1..]) == Probing(ids[1..]) && [] + ProbeDispatches(ids[1..]) == ProbeDispatches(ids[1..]);
      CoveredProbes(fold, ids[1..], events, results);
    } else {
      assert Probing(ids)[1..] == Probing(ids[1..]) && Probing(ids)[0] == ids[0];
      CoveredProbes(fold, ids[1..], events[1..], results[1..]);
      var d := Dispatch(Some(PreflightPhase), ids[0].id, PreflightCall(ids[0]).request, 1);
      CoveredSame(fold, [events[0].call], d);
      CoveredConcat(fold, [events[0].call], [d], CallsOf(events[1..]), ProbeDispatches(ids[1..]));
      assert CallsOf(events) == [events[0].call] + CallsOf(events[1..]);
    }
  }

  /** No captured variable changes this request. */
  ghost predicate ConcreteRequest(lib: Library, r: Request) {
    && Index(r.url, "{{") < 0
    && (forall k :: k in r.headers ==> Index(r.headers[k], "{{") < 0)
    && (forall k :: k in r.query ==> Index(r.query[k], "{{") < 0)
    && (r.body.Raw? ==> forall vars: map<string, string> :: lib.substituteBody(r.body, vars) == Some(r.body))
  }

  lemma ConcreteTexts(m: map<string, string>, vars: map<string, string>)
    requires forall k :: k in m ==> Index(m[k], "{{") < 0
    ensures SubstituteMap(m, vars) == Some(m)
  {
    forall k | k in m
      ensures Substitute(m[k], vars) == Some(m[k])
    {
      NoHole(m[k], "{{", "}}", Captured(vars));
    }
    assert (map k | k in m :: Substitute(m[k], vars).value) == m;
  }

  lemma ConcreteStays(lib: Library, r: Request, vars: map<string, string>)
    requires ConcreteRequest(lib, r)
    ensures SubstituteRequest(lib, r, vars) == Some(r)
  {
    hide Index, Substitute;
    NoHoleText(r.url, vars);
    ConcreteTexts(r.headers, vars);
    ConcreteTexts(r.query, vars);
  }

  lemma NoHoleText(s: string, vars: map<string, string>)
    requires Index(s, "{{") < 0
    ensures Substitute(s, vars) == Some(s)
  {
    NoHole(s, "{{", "}}", Captured(vars));
  }

  /** Every request the case declares is written out in full; credentials may still be captured. */
  ghost predicate Concrete(lib: Library, tc: TestCase) {
    && ConcreteRequest(lib, tc.request)
    && (forall i :: 0 <= i < |tc.setup| ==> ConcreteRequest(lib, tc.setup[i].request))
    && (tc.verification.Some? ==>
          && ConcreteRequest(lib, tc.verification.value.request)
          && (tc.verification.value.reset.Some? ==> ConcreteRequest(lib, tc.verification.value.reset.value.request)))
  }

  lemma {:induction false} SetupNonNegative(tc: TestCase, i: nat)
    requires i <= |tc.setup|
    ensures NonNegative(SetupDispatches(tc, i))
    decreases |tc.setup| - i
  {
    if i < |tc.setup| {
      SetupNonNegative(tc, i + 1);
    }
  }

  lemma {:induction false} CoveredSetup<S>(p: Platform<S>, fold: char -> char, tc: TestCase, i: nat, w: World<S>,
      vars: map<string, string>)
    returns (events: seq<Event<S>>)
    requires i <= |tc.setup| && Concrete(p.library, tc)
    ensures Extends(p, w, events, RunSetupFrom(p, tc, i, w, vars).0) && SetupOnly(events)
    ensures Covered(fold, CallsOf(events), SetupDispatches(tc, i))
    decreases |tc.setup| - i
  {
    hide Extends, StepVars, SubstituteRequest, StepActor, Covered, ConcreteRequest;
    events := [];
    SetupNonNegative(tc, i);
    ExtendsNothing(p, w);
    EmptyCalls<S>();
    CoveredNothing(fold, SetupDispatches(tc, i));
    if i < |tc.setup| && StepCall(p.library, tc, i, vars).Some? {
      ConcreteStays(p.library, tc.setup[i].request, vars);
      var c := StepCall(p.library, tc, i, vars).value;
      var (w', ex) := Send(p, w, c);
      var e := SendExtends(p, w, c);
      var d := Dispatch(Some(SetupPhase), c.actor.id, tc.setup[i].request, 1);
      var next := StepVars(p.library, tc.setup[i], i, ex, vars);
      var rest: seq<Event<S>> := [];
      if next.Some? {
        rest := CoveredSetup(p, fold, tc, i + 1, w', next.value);
        ExtendsTransitive(p, w, [e], w', rest, RunSetupFrom(p, tc, i + 1, w', next.value).0);
      } else {
        SetupNonNegative(tc, i + 1);
        CoveredNothing(fold, SetupDispatches(tc, i + 1));
        assert [e] + rest == [e];
      }
      events := [e] + rest;
      CoveredSame(fold, [c], d);
      CallsOfConcat([e], rest);
      assert CallsOf([e]) == [c];
      CoveredConcat(fold, [c], [d], CallsOf(rest), SetupDispatches(tc, i + 1));
    }
  }

  // ----- Binding captured variables changes no projected request -----

  ghost predicate SameRequests(b: TestCase, tc: TestCase) {
    && SameIds(b.identities, tc.identities) && b.expected == tc.expected
    && b.request == tc.request && b.corsProbe == tc.corsProbe
    && (b.verification.Some? <==> tc.verification.Some?)
    && (b.verification.Some? ==>
          var x, y := b.verification.value, tc.verification.value;
          x == y.(identity := x.identity) && x.identity == y.identity.(credential := x.identity.credential))
  }

  lemma AppliedRequests(lib: Library, tc: TestCase, vars: map<string, string>)
    requires Concrete(lib, tc) && ApplyVars(lib, tc, vars).Some?
    ensures SameRequests(ApplyVars(lib, tc, vars).value, tc)
  {
    hide SubstituteRequest, SubstituteIdentities, Substitute, ConcreteRequest, SameIds;
    if vars == map[] {
      SameIdsReflexive(tc.identities);
    } else {
      BoundIds(tc.identities, vars);
      ConcreteStays(lib, tc.request, vars);
      if tc.verification.Some? {
        var wv := tc.verification.value;
        ConcreteStays(lib, wv.request, vars);
        if wv.reset.Some? {
          ConcreteStays(lib, wv.reset.value.request, vars);
        }
      }
    }
  }

  lemma SameIdsReflexive(ids: seq<Identity>)
    ensures SameIds(ids, ids)
  {
  }

  lemma {:induction false} LastIdentityId(ids: seq<Identity>, id: string, default: Identity)
    ensures LastIdentity(ids, id, default).id == if KnownId(ids, id) then id else default.id
  {
    if ids != [] {
      LastIdentityId(ids[1..], id, if ids[0].id == id then ids[0] else default);
      if KnownId(ids, id) && ids[0].id != id {
        var i :| 0 <= i < |ids| && ids[i].id == id;
        assert ids[1..][i - 1].id == id;
      }
      if KnownId(ids[1..], id) {
        var i :| 0 <= i < |ids[1..]| && ids[1..][i].id == id;
        assert ids[i + 1].id == id;
      }
    }
  }

  lemma SameResetActor(b: TestCase, tc: TestCase, reset: SetupStep)
    requires SameIds(b.identities, tc.identities)
    ensures ResetActor(b, reset).id == ResetActor(tc, reset).id
  {
    var default := Identity("verification-reset", "", "", Credential(StaticHeader, "", ""), None);
    LastIdentityId(b.identities, reset.actor, default);
    LastIdentityId(tc.identities, reset.actor, default);
    assert forall i :: 0 <= i < |tc.identities| ==> b.identities[i].id == tc.identities[i].id;
  }

  lemma SameIdentityDispatches(lib: Library, b: TestCase, tc: TestCase, id: string)
    requires SameRequests(b, tc)
    ensures IdentityDispatches(lib, b, id) == IdentityDispatches(lib, tc, id)
  {
    hide ResetActor, SameIds;
    if IsVerified(tc, id) && tc.verification.value.reset.Some? {
      SameResetActor(b, tc, tc.verification.value.reset.value);
    }
  }

  lemma {:induction false} SameDispatches(lib: Library, b: TestCase, tc: TestCase, bs: seq<Identity>,
      ids: seq<Identity>)
    requires SameRequests(b, tc) && SameIds(bs, ids)
    ensures AllDispatches(lib, b, bs) == AllDispatches(lib, tc, ids)
    ensures ProbeDispatches(bs) == ProbeDispatches(ids)
  {
    hide IdentityDispatches, SameRequests;
    if ids != [] {
      SameIdentityDispatches(lib, b, tc, ids[0].id);
      SameDispatches(lib, b, tc, bs[1..], ids[1..]);
    }
  }

  lemma {:induction false} ProbesConcat(a: seq<Identity>, b: seq<Identity>)
    ensures ProbeDispatches(a + b) == ProbeDispatches(a) + ProbeDispatches(b)
  {
    if a == [] {
      assert a + b == b;
    } else {
      ProbesConcat(a[1..], b);
      assert (a + b)[1..] == a[1..] + b;
      assert (a + b)[0] == a[0];
      var own :=
        if a[0].preflight.Some? then [Dispatch(Some(PreflightPhase), a[0].id, PreflightCall(a[0]).request, 1)] else [];
      Associates(own, ProbeDispatches(a[1..]), ProbeDispatches(b));
    }
  }

  lemma SameProjection(lib: Library, b: TestCase, tc: TestCase)
    requires SameRequests(b, tc)
    ensures ProbeDispatches(PreflightIdentities(b)) == ProbeDispatches(PreflightIdentities(tc))
    ensures AllDispatches(lib, b, b.identities) == AllDispatches(lib, tc, tc.identities)
  {
    hide AllDispatches, SameIds;
    SameDispatches(lib, b, tc, b.identities, tc.identities);
    if tc.verification.Some? {
      var x, y := [b.verification.value.identity], [tc.verification.value.identity];
      ProbesConcat(b.identities, x);
      ProbesConcat(tc.identities, y);
      assert ProbeDispatches(x) == ProbeDispatches(y);
    }
    assert b.identities + [] == b.identities && tc.identities + [] == tc.identities;
  }

  // ----- Whole runs -----

  ghost predicate StagesRise<S>(t: seq<Event<S>>) {
    forall i, j :: 0 <= i < j < |t| ==> Stage(Some(t[i].call.phase)) <= Stage(Some(t[j].call.phase))
  }

  ghost predicate Staged<S>(events: seq<Event<S>>, stage: int) {
    forall i :: 0 <= i < |events| ==> Stage(Some(events[i].call.phase)) == stage
  }

  lemma StagedConcat<S>(a: seq<Event<S>>, b: seq<Event<S>>, c: seq<Event<S>>)
    requires Staged(a, 0) && Staged(b, 1) && Staged(c, 2)
    ensures StagesRise(a + (b + c))
  {
    var t := a + (b + c);
    assert forall i :: 0 <= i < |t| ==>
      t[i] == if i < |a| then a[i] else if i < |a| + |b| then b[i - |a|] else c[i - |a| - |b|];
  }

  lemma BlocksStaged<S>(p: Platform<S>, tc: TestCase, order: seq<Identity>, blocks: seq<seq<Event<S>>>)
    requires BlocksOk(p, tc, order, blocks)
    ensures Staged(Flatten(blocks), 2)
  {
    hide BlockOk, Flatten;
    forall k | 0 <= k < |Flatten(blocks)|
      ensures Stage(Some(Flatten(blocks)[k].call.phase)) == 2
    {
      var i, j := Locate(blocks, k);
      FlattenAt(blocks, i, j);
      BlockPhases(p, tc, order[i], blocks[i], j);
    }
  }

  /** What a run of a bound case sends beyond what was sent before it. */
  lemma BoundRunCovered<S>(p: Platform<S>, fold: char -> char, tc: TestCase,
      w: World<S>) returns (probes: seq<Event<S>>, rest: seq<Event<S>>)
    requires Sound(tc)
    ensures Extends(p, w, probes + rest, RunBound(p, tc, w).0)
    ensures Staged(probes, 1) && Staged(rest, 2)
    ensures Covered(fold, CallsOf(probes), ProbeDispatches(PreflightIdentities(tc)))
    ensures Covered(fold, CallsOf(rest), AllDispatches(p.library, tc, tc.identities))
  {
    hide Extends, BlockOk, Covered, RunBound, ResultFollows, ProbeDispatches, AllDispatches, CallsOf, SamePlan, Flatten;
    var blocks;
    probes, blocks := RunShape(p, tc, w);
    rest := Flatten(blocks);
    CoveredProbes(fold, PreflightIdentities(tc), probes, RunBound(p, tc, w).1.preflight);
    if AllPassed(RunBound(p, tc, w).1.preflight) {
      CoveredBlocks(p, fold, tc, ExecutionOrder(tc), blocks);
      OrderPlan(fold, p.library, tc);
      SamePlanCovers(fold, CallsOf(rest), AllDispatches(p.library, tc, ExecutionOrder(tc)),
        AllDispatches(p.library, tc, tc.identities));
      BlocksStaged(p, tc, ExecutionOrder(tc), blocks);
    } else {
      NothingFlattens<Event<S>>();
      EmptyCalls<S>();
      DispatchesNonNegative(p.library, tc, tc.identities);
      CoveredNothing(fold, AllDispatches(p.library, tc, tc.identities));
    }
  }

  /** Main result, open loop: whatever the server answers, a run of a case whose requests are
      written out sends at most what its projection lists, phase after phase. */
  lemma RunFitsProjection<S>(p: Platform<S>, fold: char -> char, tc: TestCase, s: S, cancelled: bool)
    requires Concrete(p.library, tc)
    ensures var start := World(s, cancelled, []); var (w, _) := Run(p, tc, start);
      && Extends(p, start, w.trace, w)
      && StagesRise(w.trace)
      && Covered(fold, CallsOf(w.trace), Projection(p.library, tc))
  {
    hide Valid, RunBound, ApplyVars, RunSetupFrom, Sound, SameDecisions, Concrete, Covered, Extends, SameRequests,
         SetupDispatches, ProbeDispatches, AllDispatches, CallsOf, Staged, StagesRise, NonNegative;
    var start := World(s, cancelled, []);
    var lib := p.library;
    SetupNonNegative(tc, 0);
    ProbesNonNegative(PreflightIdentities(tc));
    DispatchesNonNegative(lib, tc, tc.identities);
    CoveredNothing(fold, ProbeDispatches(PreflightIdentities(tc)));
    CoveredNothing(fold, AllDispatches(lib, tc, tc.identities));
    var events: seq<Event<S>>, probes: seq<Event<S>>, rest: seq<Event<S>> := [], [], [];
    NothingSent<S>();
    if !Valid(lib, tc) {
      CoveredNothing(fold, SetupDispatches(tc, 0));
      ExtendsNothing(p, start);
    } else {
      var (w', vars) := RunSetupFrom(p, tc, 0, start, map[]);
      events := CoveredSetup(p, fold, tc, 0, start, map[]);
      assert events + (probes + rest) == events;
      if vars.Some? && ApplyVars(lib, tc, vars.value).Some? {
        var b := ApplyVars(lib, tc, vars.value).value;
        ValidIsSound(lib, tc);
        BoundDecisions(lib, tc, vars.value);
        BoundCase(b, tc);
        AppliedRequests(lib, tc, vars.value);
        SameProjection(lib, b, tc);
        probes, rest := BoundRunCovered(p, fold, b, w');
        ExtendsTransitive(p, start, events, w', probes + rest, RunBound(p, b, w').0);
      }
    }
    Joined(p, fold, tc, events, probes, rest);
    TraceIsExtension(p, s, cancelled, events, probes, rest, Run(p, tc, start).0);
  }

  lemma Joined<S>(p: Platform<S>, fold: char -> char, tc: TestCase, events: seq<Event<S>>, probes: seq<Event<S>>,
      rest: seq<Event<S>>)
    requires SetupOnly(events) && Staged(probes, 1) && Staged(rest, 2)
    requires Covered(fold, CallsOf(events), SetupDispatches(tc, 0))
    requires Covered(fold, CallsOf(probes), ProbeDispatches(PreflightIdentities(tc)))
    requires Covered(fold, CallsOf(rest), AllDispatches(p.library, tc, tc.identities))
    ensures Covered(fold, CallsOf(events + (probes + rest)), Projection(p.library, tc))
    ensures StagesRise(events + (probes + rest))
  {
    hide Covered, SetupDispatches, ProbeDispatches, AllDispatches, StagesRise;
    assert Staged(events, 0);
    StagedConcat(events, probes, rest);
    var ds, es, fs := SetupDispatches(tc, 0), ProbeDispatches(PreflightIdentities(tc)),
      AllDispatches(p.library, tc, tc.identities);
    CoveredConcat(fold, CallsOf(events), ds, CallsOf(probes), es);
    CoveredConcat(fold, CallsOf(events) + CallsOf(probes), ds + es, CallsOf(rest), fs);
    assert CallsOf(events + (probes + rest)) == (CallsOf(events) + CallsOf(probes)) + CallsOf(rest);
  }

  lemma NothingSent<S>()
    ensures CallsOf<S>([]) == [] && Staged<S>([], 1) && Staged<S>([], 2)
  {
  }

  lemma TraceIsExtension<S>(p: Platform<S>, s: S, cancelled: bool, events: seq<Event<S>>, probes: seq<Event<S>>,
      rest: seq<Event<S>>, w: World<S>)
    requires Extends(p, World(s, cancelled, []), events + (probes + rest), w)
    ensures w.trace == events + (probes + rest)
  {
  }

  lemma {:induction false} ProbesNonNegative(ids: seq<Identity>)
    ensures NonNegative(ProbeDispatches(ids))
  {
    if ids != [] {
      ProbesNonNegative(ids[1..]);
    }
  }

  // ----- The guard beside the run -----

  function AsksOf<S>(events: seq<Event<S>>): seq<Ask> {
    seq(|events|, i requires 0 <= i < |events| => Ask(Some(events[i].call.phase), events[i].live,
      events[i].call.actor.id, events[i].call.request))
  }

  lemma {:induction false} UsesIsTally<S>(fold: char -> char, events: seq<Event<S>>, key: Key)
    ensures Uses(fold, AsksOf(events), key) == Tally(fold, CallsOf(events), key)
  {
    hide KeyOf;
    if events != [] {
      var n := |events| - 1;
      UsesIsTally(fold, events[..n], key);
      assert AsksOf(events)[..n] == AsksOf(events[..n]) && CallsOf(events)[..n] == CallsOf(events[..n]);
    }
  }

  /** A plan at least as generous as a projection, for every normalised request. */
  ghost predicate Covers(fold: char -> char, ds: seq<Dispatch>, projection: seq<Dispatch>) {
    NonNegative(ds) && forall key: Key :: Budget(projection, key, fold) <= Budget(ds, key, fold)
  }

  /** No header is listed twice in different case and every body is one document. */
  ghost predicate Understood(fold: char -> char, ds: seq<Dispatch>) {
    forall d :: d in ds ==> DispatchKey(d, fold).Some?
  }

  lemma GuardOfCovered<S>(fold: char -> char, t: seq<Event<S>>, projection: seq<Dispatch>, ds: seq<Dispatch>)
    requires Covered(fold, CallsOf(t), projection) && StagesRise(t)
    requires Understood(fold, projection) && Covers(fold, ds, projection)
    ensures |Decide(ds, fold, AsksOf(t)).decisions| == |t|
    ensures AllTrue(Decide(ds, fold, AsksOf(t)).decisions) <==> forall i :: 0 <= i < |t| ==> t[i].live
  {
    hide KeyOf, Budget, SumMax, DispatchKey, Decide, AllTrue, Tally, Uses;
    var asks := AsksOf(t);
    AllPassIff(ds, fold, asks);
    forall key: Key
      ensures Uses(fold, asks, key) <= Budget(ds, key, fold)
    {
      UsesIsTally(fold, t, key);
      assert Budget(projection, key, fold) <= Budget(ds, key, fold);
    }
    forall i | 0 <= i < |t|
      ensures asks[i].KeyIn(fold).Some?
    {
      assert CallsOf(t)[i] in CallsOf(t);
      assert KeyOfCall(fold, CallsOf(t)[i]).Some?;
    }
    assert WithinBudget(ds, fold, asks);
    assert forall i :: 0 <= i < |t| ==> asks[i].live == t[i].live && asks[i].phase == Some(t[i].call.phase);
    if InOrder(fold, asks) {
      assert forall i :: 0 <= i < |t| ==> asks[i].live;
    }
  }

  /** Main result: a guard whose plan covers the projection, asked about a run's requests in
      order, refuses none of them exactly when none was started after cancellation, and the run
      never sends more than the projection's total. */
  lemma GuardAllowsRun<S>(p: Platform<S>, fold: char -> char, tc: TestCase, s: S, cancelled: bool, ds: seq<Dispatch>)
    requires Concrete(p.library, tc)
    requires Understood(fold, Projection(p.library, tc)) && Covers(fold, ds, Projection(p.library, tc))
    ensures var t := Run(p, tc, World(s, cancelled, [])).0.trace;
      && StagesRise(t)
      && |t| <= SumMax(Projection(p.library, tc))
      && (AllTrue(Decide(ds, fold, AsksOf(t)).decisions) <==> forall i :: 0 <= i < |t| ==> t[i].live)
  {
    hide Run, Concrete, Projection, Budget, Tally, KeyOfCall, Decide, AllTrue, Understood, Covers, Extends, StagesRise,
         AsksOf, SumMax, KeyOf, DispatchKey;
    RunFitsProjection(p, fold, tc, s, cancelled);
    GuardOfCovered(fold, Run(p, tc, World(s, cancelled, [])).0.trace, Projection(p.library, tc), ds);
  }

  // ----- The guard inside the executor -----

  /** A server behind a guard: what the guard has recorded, and whether the run was cancelled. */
  datatype Guarded<+S> = Guarded(server: S, ledger: Ledger, cancelled: bool)

  const REFUSAL := Execution(0, Absent, true, true, Some(OutcomeError))

  const OPENED := Ledger([], [], -1)

  function Fresh<S>(s: S): Guarded<S> {
    Guarded(s, OPENED, false)
  }

  /** The executor consults the guard first and answers a refusal with an error of its own. Without
      heed the guard would overlook cancellation; that variant only serves the proof. */
  ghost function GuardedStep<S>(p: Platform<S>, ds: seq<Dispatch>, fold: char -> char, heed: bool,
      g: Guarded<S>, c: Call): Reply<Guarded<S>> {
    var l, live := g.ledger, !(heed && g.cancelled);
    if Permits(ds, fold, l.accepted, l.stage, Some(c.phase), live, c.actor.id, c.request) then
      var reply := p.step(g.server, c);
      var ledger := Ledger(l.decisions + [true], l.accepted + [KeyOfCall(fold, c).value], Stage(Some(c.phase)));
      Reply(Guarded(reply.next, ledger, g.cancelled || reply.cancel), reply.execution, reply.cancel)
    else Reply(g.(ledger := l.(decisions := l.decisions + [false])), REFUSAL, false)
  }

  ghost function GuardedPlatform<S>(p: Platform<S>, ds: seq<Dispatch>, fold: char -> char,
      heed: bool): Platform<Guarded<S>> {
    Platform((g: Guarded<S>, c: Call) => GuardedStep(p, ds, fold, heed, g, c), p.library)
  }

  /** What is inside the guard. */
  function Inside<S>(): Guarded<S> -> S {
    (g: Guarded<S>) => g.server
  }

  ghost predicate AllLive<S>(t: seq<Event<S>>) {
    forall i :: 0 <= i < |t| ==> t[i].live
  }

  /** The same requests as if none had been cancelled. */
  function Revived<S>(t: seq<Event<S>>): seq<Event<S>> {
    seq(|t|, i requires 0 <= i < |t| => t[i].(live := true))
  }

  lemma RevivedCalls<S>(t: seq<Event<S>>)
    ensures CallsOf(Revived(t)) == CallsOf(t) && (StagesRise(t) ==> StagesRise(Revived(t))) && AllLive(Revived(t))
  {
    hide Stage;
    assert forall i :: 0 <= i < |t| ==> Revived(t)[i].call == t[i].call;
  }

  /** The overlooking guard's ledger is the monitor's verdict on the requests so far. */
  lemma {:induction false} LedgerFollows<S>(p: Platform<S>, ds: seq<Dispatch>, fold: char -> char,
      t: seq<Event<Guarded<S>>>, n: nat)
    requires Answered(GuardedPlatform(p, ds, fold, false), t) && Linked(t) && n <= |t|
    requires t != [] ==> t[0].before.ledger == OPENED
    ensures n < |t| ==> t[n].before.ledger == Decide(ds, fold, AsksOf(Revived(t[..n])))
    ensures n > 0 ==> t[n - 1].after.ledger == Decide(ds, fold, AsksOf(Revived(t[..n])))
  {
    hide Permits, KeyOf, Stage;
    if n == 0 {
      assert AsksOf(Revived(t[..0])) == [];
    } else {
      LedgerFollows(p, ds, fold, t, n - 1);
      var e := t[n - 1];
      assert AnswersRequest(GuardedPlatform(p, ds, fold, false), e);
      var asks := AsksOf(Revived(t[..n]));
      assert asks[..n - 1] == AsksOf(Revived(t[..n - 1])) && |asks| == n;
      assert asks[n - 1] == Ask(Some(e.call.phase), true, e.call.actor.id, e.call.request);
      if n < |t| {
        assert Follows(e, t[n]);
      }
    }
  }

  lemma PassedIfAllowed<S>(p: Platform<S>, ds: seq<Dispatch>, fold: char -> char, t: seq<Event<Guarded<S>>>, i: nat)
    requires Answered(GuardedPlatform(p, ds, fold, false), t) && Linked(t) && i < |t|
    requires t[0].before.ledger == OPENED
    requires AllTrue(Decide(ds, fold, AsksOf(Revived(t))).decisions)
    ensures Passed(p, Inside<S>(), t[i])
  {
    hide Permits, KeyOf, Stage;
    LedgerFollows(p, ds, fold, t, i);
    LedgerFollows(p, ds, fold, t, i + 1);
    DecidedPrefix(ds, fold, AsksOf(Revived(t)), i + 1);
    assert AsksOf(Revived(t))[..i + 1] == AsksOf(Revived(t[..i + 1]));
    assert AnswersRequest(GuardedPlatform(p, ds, fold, false), t[i]);
    assert t[i].after.ledger.decisions[|t[i].before.ledger.decisions|];
  }

  /** Earlier decisions are not revised. */
  lemma {:induction false} DecidedPrefix(ds: seq<Dispatch>, fold: char -> char, asks: seq<Ask>, n: nat)
    requires n <= |asks| && AllTrue(Decide(ds, fold, asks).decisions)
    ensures AllTrue(Decide(ds, fold, asks[..n]).decisions)
  {
    hide Permits, KeyOf, Stage;
    if n == |asks| {
      assert asks[..n] == asks;
    } else {
      var m := |asks| - 1;
      var l, a := Decide(ds, fold, asks[..m]), asks[m];
      StepTrue(l.decisions, Permits(ds, fold, l.accepted, l.stage, a.phase, a.live, a.actor, a.request));
      DecidedPrefix(ds, fold, asks[..m], n);
      assert asks[..m][..n] == asks[..n];
    }
  }

  lemma NothingDecided(ds: seq<Dispatch>, fold: char -> char)
    ensures Decide(ds, fold, []) == OPENED && AllTrue(OPENED.decisions)
  {
  }

  lemma RevivedPasses<S>(fold: char -> char, t: seq<Event<S>>, projection: seq<Dispatch>, ds: seq<Dispatch>)
    requires Covered(fold, CallsOf(t), projection) && StagesRise(t)
    requires Understood(fold, projection) && Covers(fold, ds, projection)
    ensures |Decide(ds, fold, AsksOf(Revived(t))).decisions| == |t|
    ensures AllTrue(Decide(ds, fold, AsksOf(Revived(t))).decisions)
  {
    hide Decide, AllTrue, Covered, StagesRise, Understood, Covers, AsksOf;
    RevivedCalls(t);
    GuardOfCovered(fold, Revived(t), projection, ds);
  }

  /** The guard behind a whole trace stands where the monitor stands after its requests. */
  lemma LedgerDecided<S>(p: Platform<S>, fold: char -> char, s: S, ds: seq<Dispatch>, w: World<Guarded<S>>)
    requires Extends(GuardedPlatform(p, ds, fold, false), World(Fresh(s), false, []), w.trace, w)
    ensures w.state.ledger == Decide(ds, fold, AsksOf(Revived(w.trace)))
  {
    hide Decide, GuardedPlatform, AsksOf, Revived, AllTrue, Extends, Answered, Linked;
    var t := w.trace;
    EndsOf(GuardedPlatform(p, ds, fold, false), World(Fresh(s), false, []), t, w);
    if t == [] {
      NoAsks(t);
      NothingDecided(ds, fold);
    } else {
      LedgerFollows(p, ds, fold, t, |t|);
      assert t[..|t|] == t;
    }
  }

  lemma EndsOf<S>(p: Platform<S>, w: World<S>, events: seq<Event<S>>, w': World<S>)
    requires Extends(p, w, events, w')
    ensures Answered(p, events) && Linked(events) && (events == [] ==> w'.state == w.state)
    ensures events != [] ==> events[0].before == w.state && events[|events| - 1].after == w'.state
  {
    hide Answered, Linked;
  }

  lemma NoAsks<S>(t: seq<Event<Guarded<S>>>)
    requires t == []
    ensures AsksOf(Revived(t)) == []
  {
  }

  /** Nothing was refused over the whole trace. */
  lemma LedgerPasses<S>(p: Platform<S>, fold: char -> char, projection: seq<Dispatch>, s: S, ds: seq<Dispatch>,
      w: World<Guarded<S>>)
    requires Understood(fold, projection) && Covers(fold, ds, projection)
    requires Extends(GuardedPlatform(p, ds, fold, false), World(Fresh(s), false, []), w.trace, w)
    requires StagesRise(w.trace) && Covered(fold, CallsOf(w.trace), projection)
    ensures AllTrue(Decide(ds, fold, AsksOf(Revived(w.trace))).decisions)
    ensures AllTrue(w.state.ledger.decisions) && |w.state.ledger.decisions| == |w.trace|
  {
    hide Extends, Decide, Understood, Covers, Covered, StagesRise, AllTrue, AsksOf, Revived, CallsOf;
    LedgerDecided(p, fold, s, ds, w);
    RevivedPasses(fold, w.trace, projection, ds);
  }

  lemma TracePasses<S>(p: Platform<S>, fold: char -> char, projection: seq<Dispatch>, s: S, ds: seq<Dispatch>,
      w: World<Guarded<S>>)
    requires Understood(fold, projection) && Covers(fold, ds, projection)
    requires Extends(GuardedPlatform(p, ds, fold, false), World(Fresh(s), false, []), w.trace, w)
    requires StagesRise(w.trace) && Covered(fold, CallsOf(w.trace), projection)
    ensures AllPass(p, Inside<S>(), w.trace)
    ensures AllTrue(w.state.ledger.decisions) && |w.state.ledger.decisions| == |w.trace|
  {
    hide Budget, Tally, KeyOfCall, Decide, Understood, Covers, Permits, Linked, Answered, GuardedStep, Covered,
         StagesRise, KeyOf, DispatchKey, AllTrue, Passed, AllLive, AsksOf, Revived, CallsOf;
    var t := w.trace;
    LedgerPasses(p, fold, projection, s, ds, w);
    forall i | 0 <= i < |t|
      ensures Passed(p, Inside<S>(), t[i])
    {
      PassedIfAllowed(p, ds, fold, t, i);
    }
  }

  // The guard's own record of cancellation is the run's.
  lemma {:induction false} CancelTracks<S>(p: Platform<S>, ds: seq<Dispatch>, fold: char -> char,
      t: seq<Event<Guarded<S>>>, n: nat)
    requires Answered(GuardedPlatform(p, ds, fold, false), t) && Linked(t) && n < |t|
    requires t[0].live && !t[0].before.cancelled
    ensures t[n].before.cancelled == !t[n].live && t[n].after.cancelled == t[n].cancelled
  {
    hide Permits, KeyOf, Stage;
    if n > 0 {
      CancelTracks(p, ds, fold, t, n - 1);
      assert Follows(t[n - 1], t[n]);
    }
    assert AnswersRequest(GuardedPlatform(p, ds, fold, false), t[n]);
  }

  function Whole<S>(): Guarded<S> -> Guarded<S> {
    (g: Guarded<S>) => g
  }

  lemma WholeWorld<S>(w: World<Guarded<S>>)
    ensures InnerWorld(Whole<S>(), w) == w
  {
    assert InnerTrace(Whole<S>(), w.trace) == w.trace;
  }

  /** On a live run the overlooking guard answers as the real one. */
  lemma HeedingAgrees<S>(p: Platform<S>, ds: seq<Dispatch>, fold: char -> char, s: S, w: World<Guarded<S>>)
    requires Extends(GuardedPlatform(p, ds, fold, false), World(Fresh(s), false, []), w.trace, w) && AllLive(w.trace)
    ensures AllPass(GuardedPlatform(p, ds, fold, true), Whole<S>(), w.trace)
  {
    hide Permits, KeyOf, Stage, Answered, Linked;
    forall i | 0 <= i < |w.trace|
      ensures Passed(GuardedPlatform(p, ds, fold, true), Whole<S>(), w.trace[i])
    {
      CancelTracks(p, ds, fold, w.trace, i);
      AnsweredAt(GuardedPlatform(p, ds, fold, false), w.trace, i);
    }
  }

  lemma AnsweredAt<S>(p: Platform<S>, t: seq<Event<S>>, i: nat)
    requires Answered(p, t) && i < |t|
    ensures AnswersRequest(p, t[i])
  {
  }

  /** Main result, closed loop: put such a guard inside the executor, and if this run is not cancelled
      while it still sends requests, the guard refuses none of them; the run ends with the same outcome,
      and the server has seen the same requests and is left in the same state, as without any guard. */
  lemma GuardIsTransparent<S>(p: Platform<S>, fold: char -> char, tc: TestCase, s: S, ds: seq<Dispatch>)
    requires Concrete(p.library, tc) && AllLive(Run(p, tc, World(s, false, [])).0.trace)
    requires Understood(fold, Projection(p.library, tc)) && Covers(fold, ds, Projection(p.library, tc))
    ensures var (w, outcome) := Run(GuardedPlatform(p, ds, fold, true), tc, World(Fresh(s), false, []));
      && (InnerWorld(Inside<S>(), w), outcome) == Run(p, tc, World(s, false, []))
      && AllTrue(w.state.ledger.decisions) && |w.state.ledger.decisions| == |w.trace|
  {
    hide Run, Concrete, Projection, Budget, Understood, Covers, Extends, StagesRise, Covered, GuardedStep,
         KeyOf, DispatchKey, Decide, AllPass, AllTrue;
    var g, start := GuardedPlatform(p, ds, fold, false), World(Fresh(s), false, []);
    assert g.library == p.library;
    RunFitsProjection(g, fold, tc, Fresh(s), false);
    var w := Run(g, tc, start).0;
    TracePasses(p, fold, Projection(p.library, tc), s, ds, w);
    SameRun(g, p, Inside<S>(), tc, start);
    assert InnerWorld(Inside<S>(), start) == World(s, false, []);
    SameLive(Inside<S>(), w.trace);
    HeedingAgrees(p, ds, fold, s, w);
    SameRun(g, GuardedPlatform(p, ds, fold, true), Whole<S>(), tc, start);
    WholeWorld(start);
    WholeWorld(w);
  }

  lemma SameLive<T, S>(inner: T -> S, t: seq<Event<T>>)
    requires AllLive(InnerTrace(inner, t))
    ensures AllLive(t)
  {
    assert forall i :: 0 <= i < |t| ==> InnerTrace(inner, t)[i].live == t[i].live;
  }
}
