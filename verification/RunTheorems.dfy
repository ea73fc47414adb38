/** What every run keeps, against any server: its shape, the discipline of its trace, what each identity's
    records rest on, and what cancellation withholds. */
module RunTheorems {
  import opened Basics
  import opened Model
  import opened Server
  import opened Verify
  import opened Validation
  import opened Judgement
  import opened Setup
  import opened Engine
  import opened Attempts
  import opened Order
  import opened Runs

  // ----- Positions in a flattened trace -----

  ghost function Start<T>(blocks: seq<seq<T>>, i: nat): nat
    requires i <= |blocks|
  {
    |Flatten(blocks[..i])|
  }

  lemma {:induction false} FlattenConcat<T>(a: seq<seq<T>>, b: seq<seq<T>>)
    ensures Flatten(a + b) == Flatten(a) + Flatten(b)
  {
    if a == [] {
      assert a + b == b;
    } else {
      FlattenConcat(a[1..], b);
      assert (a + b)[1..] == a[1..] + b;
      Associates(a[0], Flatten(a[1..]), Flatten(b));
    }
  }

  lemma FlattenAt<T>(blocks: seq<seq<T>>, i: nat, j: nat)
    requires i < |blocks| && j < |blocks[i]|
    ensures Start(blocks, i) + j < |Flatten(blocks)| && Flatten(blocks)[Start(blocks, i) + j] == blocks[i][j]
  {
    assert blocks == blocks[..i] + blocks[i..];
    FlattenConcat(blocks[..i], blocks[i..]);
  }

  lemma StartFits<T>(blocks: seq<seq<T>>, i: nat)
    requires i < |blocks|
    ensures Start(blocks, i) + |blocks[i]| <= |Flatten(blocks)|
  {
    assert blocks == blocks[..i] + blocks[i..];
    FlattenConcat(blocks[..i], blocks[i..]);
  }

  lemma {:induction false} Locate<T>(blocks: seq<seq<T>>, k: nat) returns (i: nat, j: nat)
    requires k < |Flatten(blocks)|
    ensures i < |blocks| && j < |blocks[i]| && k == Start(blocks, i) + j
  {
    if k < |blocks[0]| {
      i, j := 0, k;
      assert blocks[..0] == [];
    } else {
      var m;
      m, j := Locate(blocks[1..], k - |blocks[0]|);
      i := m + 1;
      assert blocks[..i] == [blocks[0]] + blocks[1..][..m];
      assert (blocks[..i])[1..] == blocks[1..][..m];
    }
  }

  // ----- Preflights -----

  function Probing(ids: seq<Identity>): seq<Identity> {
    if ids == [] then [] else (if ids[0].preflight.Some? then [ids[0]] else []) + Probing(ids[1..])
  }

  lemma {:induction false} ProbingMembers(ids: seq<Identity>)
    ensures forall id :: id in Probing(ids) ==> id in ids && id.preflight.Some?
    ensures forall i :: 0 <= i < |ids| && ids[i].preflight.Some? ==> ids[i] in Probing(ids)
    ensures |Probing(ids)| <= |ids|
  {
    if ids != [] {
      ProbingMembers(ids[1..]);
      assert forall i :: 0 < i < |ids| ==> ids[i] == ids[1..][i - 1];
    }
  }

  /** One probe per declared preflight, in order, each result read off its own response. */
  ghost predicate ProbesOk<S>(ids: seq<Identity>, events: seq<Event<S>>, results: seq<PreflightResult>) {
    && |events| == |results| == |ids|
    && forall k :: 0 <= k < |ids| ==>
         && ids[k].preflight.Some?
         && events[k].call == PreflightCall(ids[k])
         && results[k] == ProbeResult(ids[k], events[k].execution)
  }

  lemma {:induction false} ProbeEvents<S>(p: Platform<S>, ids: seq<Identity>,
      w: World<S>) returns (events: seq<Event<S>>)
    ensures var (w', results) := Probe(p, ids, w);
      Extends(p, w, events, w') && ProbesOk(Probing(ids), events, results)
  {
    hide Extends, ProbeResult;
    if ids == [] {
      events := [];
      ExtendsNothing(p, w);
    } else if ids[0].preflight.None? {
      events := ProbeEvents(p, ids[1..], w);
    } else {
      var (w', ex) := Send(p, w, PreflightCall(ids[0]));
      var e := SendExtends(p, w, PreflightCall(ids[0]));
      var rest := ProbeEvents(p, ids[1..], w');
      events := [e] + rest;
      ExtendsTransitive(p, w, [e], w', rest, Probe(p, ids[1..], w').0);
    }
  }

  // ----- The shape of a run -----

  /** Probes first; then, only if all passed, one block per identity in execution order. */
  ghost predicate Shape<S>(p: Platform<S>, tc: TestCase, w: World<S>, w': World<S>, r: RunResult,
      probes: seq<Event<S>>, blocks: seq<seq<Event<S>>>)
  {
    && Extends(p, w, probes + Flatten(blocks), w')
    && ProbesOk(Probing(PreflightIdentities(tc)), probes, r.preflight)
    && (if AllPassed(r.preflight) then BlocksOk(p, tc, ExecutionOrder(tc), blocks) else blocks == [])
  }

  /** After passed preflights the result is concluded from what the blocks justify. */
  ghost predicate ResultFollows<S>(p: Platform<S>, tc: TestCase, w: World<S>, r: RunResult,
      blocks: seq<seq<Event<S>>>) {
    AllPassed(r.preflight) ==>
      var pass := FirstPass(p, tc, Probe(p, PreflightIdentities(tc), w).0);
      && r == Conclude(p.library, tc, pass.executions, GuardedDenials(tc.expected, pass.verified), r.preflight)
      && BlocksOk(p, tc, ExecutionOrder(tc), blocks)
      && (forall i :: 0 <= i < |blocks| ==>
            && Recorded(p, tc, ExecutionOrder(tc)[i], blocks[i], pass)
            && SharesBaseline(tc, ExecutionOrder(tc)[i], blocks[i], pass.session))
      && (forall x :: x in pass.verified <==> Mentions(ExecutionOrder(tc), x) && IsVerified(tc, x))
  }

  lemma RunShape<S>(p: Platform<S>, tc: TestCase, w: World<S>) returns (probes: seq<Event<S>>,
      blocks: seq<seq<Event<S>>>)
    requires Sound(tc)
    ensures var (w', r) := RunBound(p, tc, w); Shape(p, tc, w, w', r, probes, blocks)
    ensures ResultFollows(p, tc, w, RunBound(p, tc, w).1, blocks)
  {
    hide Extends, BlockOk, Recorded, SharesBaseline, ProbesOk, Executions, Findings, Assessments, GuardedDenials,
      ExecuteAll;
    probes := ProbeEvents(p, PreflightIdentities(tc), w);
    var (v, results) := Probe(p, PreflightIdentities(tc), w);
    var order := ExecutionOrder(tc);
    if AllPassed(results) {
      var _ := OrderIsPermutation(tc);
      blocks := PassBlocks(p, tc, order, Pass(v, None, map[], map[]));
      ExtendsTransitive(p, w, probes, v, Flatten(blocks), FirstPass(p, tc, v).world);
    } else {
      blocks := [];
      assert probes + Flatten(blocks) == probes;
    }
  }

  // ----- Trace discipline -----

  /** A verified identity's write at position k follows two equal usable reads, all on a live run. */
  ghost predicate WriteIsGuarded<S>(lib: Library, wv: WriteVerification, t: seq<Event<S>>, k: nat)
    requires 2 <= k < |t|
  {
    && t[k].live && t[k - 1].live && t[k - 2].live
    && t[k - 1].call == ReaderCall(lib, wv) && t[k - 2].call == ReaderCall(lib, wv)
    && Baseline(wv, Interpret(wv, t[k - 2].execution, false), Interpret(wv, t[k - 1].execution, false))
  }

  lemma BlockPhases<S>(p: Platform<S>, tc: TestCase, id: Identity, block: seq<Event<S>>, j: nat)
    requires BlockOk(p, tc, id, block) && j < |block|
    ensures var c := block[j].call;
      && !c.phase.SetupPhase? && !c.phase.PreflightPhase?
      && (c.phase.ResourcePhase? <==> j == if IsVerified(tc, id.id) then ResetCount(tc.verification.value) + 2 else 0)
      && (c.phase.ResourcePhase? ==> c == Call(ResourcePhase, id, TestRequest(tc)))
      && (IsVerified(tc, id.id) ==> block[j].live)
  {
    if IsVerified(tc, id.id) {
      assert block[j].call == AttemptCall(p.library, tc, tc.verification.value, id, TestRequest(tc), 0 + j);
    }
  }

  lemma BlockWriteGuarded<S>(p: Platform<S>, tc: TestCase, id: Identity, block: seq<Event<S>>, j: nat)
    requires IsVerified(tc, id.id) && BlockOk(p, tc, id, block) && j < |block| && block[j].call.phase.ResourcePhase?
    ensures j == ResetCount(tc.verification.value) + 2 && WriteIsGuarded(p.library, tc.verification.value, block, j)
  {
    hide Interpret, Baseline;
    var wv := tc.verification.value;
    BlockPhases(p, tc, id, block, j);
    assert block[j - 1].call == AttemptCall(p.library, tc, wv, id, TestRequest(tc), 0 + (j - 1));
    assert block[j - 2].call == AttemptCall(p.library, tc, wv, id, TestRequest(tc), 0 + (j - 2));
  }

  /** Before its probes a run has at most sent setup steps. */
  ghost predicate SetupOnly<S>(t: seq<Event<S>>) {
    forall n :: 0 <= n < |t| ==> t[n].call.phase.SetupPhase?
  }

  /** The trace of a run: setup and probes, then blocks, if any. */
  ghost predicate TraceOf<S>(p: Platform<S>, tc: TestCase, t: seq<Event<S>>, lead: seq<Event<S>>,
      blocks: seq<seq<Event<S>>>) {
    && t == lead + Flatten(blocks)
    && (forall n :: 0 <= n < |lead| ==> lead[n].call.phase.SetupPhase? || lead[n].call.phase.PreflightPhase?)
    && (blocks == [] || BlocksOk(p, tc, ExecutionOrder(tc), blocks))
    && DistinctIdentities(ExecutionOrder(tc))
  }

  lemma RunTrace<S>(p: Platform<S>, tc: TestCase, w: World<S>) returns (lead: seq<Event<S>>, blocks: seq<seq<Event<S>>>)
    requires Sound(tc) && SetupOnly(w.trace)
    ensures var (w', r) := RunBound(p, tc, w);
      && TraceOf(p, tc, w'.trace, lead, blocks)
      && Answered(p, Flatten(blocks)) && Linked(Flatten(blocks))
      && (if AllPassed(r.preflight) then |blocks| == |ExecutionOrder(tc)| else blocks == [])
    ensures ResultFollows(p, tc, w, RunBound(p, tc, w).1, blocks)
  {
    hide BlockOk, ResultFollows, RunBound, Flatten;
    var probes;
    probes, blocks := RunShape(p, tc, w);
    lead := w.trace + probes;
    var (w', r) := RunBound(p, tc, w);
    assert w'.trace == lead + Flatten(blocks);
    TailOfTrace(p, w, probes, Flatten(blocks), w');
    var _ := OrderIsPermutation(tc);
  }

  lemma TailOfTrace<S>(p: Platform<S>, w: World<S>, a: seq<Event<S>>, b: seq<Event<S>>, w': World<S>)
    requires Extends(p, w, a + b, w')
    ensures Answered(p, b) && Linked(b)
  {
    var t := a + b;
    assert forall j :: 0 <= j < |b| ==> t[|a| + j] == b[j];
    forall j | 0 < j < |b|
      ensures Follows(b[j - 1], b[j])
    {
      assert Follows(t[|a| + j - 1], t[|a| + j]);
    }
  }

  /** The identity and place of an event that is neither setup nor a probe. */
  lemma LocateEvent<S>(p: Platform<S>, tc: TestCase, t: seq<Event<S>>, lead: seq<Event<S>>,
      blocks: seq<seq<Event<S>>>, k: nat)
    returns (i: nat, j: nat)
    requires TraceOf(p, tc, t, lead, blocks) && k < |t|
    requires !t[k].call.phase.PreflightPhase? && !t[k].call.phase.SetupPhase?
    ensures i < |blocks| == |ExecutionOrder(tc)| && j < |blocks[i]| && BlockOk(p, tc, ExecutionOrder(tc)[i], blocks[i])
    ensures k == |lead| + Start(blocks, i) + j && t[k] == blocks[i][j]
  {
    hide BlockOk, Flatten, ExecutionOrder;
    assert k >= |lead|;
    assert t[k] == Flatten(blocks)[k - |lead|];
    NothingFlattens<Event<S>>();
    i, j := Locate(blocks, k - |lead|);
    FlattenAt(blocks, i, j);
  }

  lemma NothingFlattens<T>()
    ensures Flatten<T>([]) == []
  {
  }

  lemma SentOnce<S>(p: Platform<S>, tc: TestCase, t: seq<Event<S>>, lead: seq<Event<S>>, blocks: seq<seq<Event<S>>>,
      k: nat, m: nat)
    requires TraceOf(p, tc, t, lead, blocks) && k < m < |t|
    requires t[k].call.phase.ResourcePhase? && t[m].call.phase.ResourcePhase?
    ensures t[k].call.actor.id != t[m].call.actor.id
  {
    hide BlockOk, Flatten;
    var order := ExecutionOrder(tc);
    var i, j := LocateEvent(p, tc, t, lead, blocks, k);
    var i', j' := LocateEvent(p, tc, t, lead, blocks, m);
    BlockPhases(p, tc, order[i], blocks[i], j);
    BlockPhases(p, tc, order[i'], blocks[i'], j');
  }

  lemma WriteGuarded<S>(p: Platform<S>, tc: TestCase, t: seq<Event<S>>, lead: seq<Event<S>>,
      blocks: seq<seq<Event<S>>>, k: nat)
    requires TraceOf(p, tc, t, lead, blocks) && k < |t|
    requires t[k].call.phase.ResourcePhase? && IsVerified(tc, t[k].call.actor.id)
    ensures 2 <= k && WriteIsGuarded(p.library, tc.verification.value, t, k)
  {
    hide BlockOk, Interpret, Baseline, TraceOf;
    var order := ExecutionOrder(tc);
    var i, j := LocateEvent(p, tc, t, lead, blocks, k);
    BlockPhases(p, tc, order[i], blocks[i], j);
    BlockWriteGuarded(p, tc, order[i], blocks[i], j);
    BlockInTrace(p, tc, t, lead, blocks, i, j - 1);
    BlockInTrace(p, tc, t, lead, blocks, i, j - 2);
  }

  lemma BlockInTrace<S>(p: Platform<S>, tc: TestCase, t: seq<Event<S>>, lead: seq<Event<S>>,
      blocks: seq<seq<Event<S>>>, i: nat, j: nat)
    requires TraceOf(p, tc, t, lead, blocks) && i < |blocks| && j < |blocks[i]|
    ensures |lead| + Start(blocks, i) + j < |t| && t[|lead| + Start(blocks, i) + j] == blocks[i][j]
  {
    FlattenAt(blocks, i, j);
  }

  lemma ReadIsLive<S>(p: Platform<S>, tc: TestCase, t: seq<Event<S>>, lead: seq<Event<S>>, blocks: seq<seq<Event<S>>>,
      k: nat)
    requires TraceOf(p, tc, t, lead, blocks) && k < |t|
    requires t[k].call.phase.VerificationPhase? || t[k].call.phase.ResetPhase?
    ensures t[k].live
  {
    var i, j := LocateEvent(p, tc, t, lead, blocks, k);
    BlockPhases(p, tc, ExecutionOrder(tc)[i], blocks[i], j);
    UnverifiedBlock(p, tc, ExecutionOrder(tc)[i], blocks[i]);
  }

  lemma UnverifiedBlock<S>(p: Platform<S>, tc: TestCase, id: Identity, block: seq<Event<S>>)
    requires BlockOk(p, tc, id, block)
    ensures !IsVerified(tc, id.id) ==> |block| == 1 && block[0].call.phase.ResourcePhase?
  {
  }

  /** Main result: nothing is sent to the resource unless every preflight passed; each identity's
      request is sent at most once; a verified one only right behind two equal usable baseline
      reads; and none of a verified identity's requests starts on a cancelled run. */
  lemma TraceDiscipline<S>(p: Platform<S>, tc: TestCase, w: World<S>)
    requires Sound(tc) && SetupOnly(w.trace)
    ensures var (w', r) := RunBound(p, tc, w); var t := w'.trace;
      && (!AllPassed(r.preflight) ==>
            forall k :: 0 <= k < |t| ==> t[k].call.phase.SetupPhase? || t[k].call.phase.PreflightPhase?)
      && (forall k, m :: 0 <= k < m < |t| && t[k].call.phase.ResourcePhase? && t[m].call.phase.ResourcePhase?
            ==> t[k].call.actor.id != t[m].call.actor.id)
      && (forall k :: 0 <= k < |t| && t[k].call.phase.ResourcePhase? && IsVerified(tc, t[k].call.actor.id)
            ==> 2 <= k && WriteIsGuarded(p.library, tc.verification.value, t, k))
      && (forall k :: 0 <= k < |t| && (t[k].call.phase.VerificationPhase? || t[k].call.phase.ResetPhase?) ==> t[k].live)
  {
    hide RunBound, WriteIsGuarded, Answered, Linked, Recorded, SharesBaseline, Conclude, GuardedDenials, FirstPass;
    var (w', r) := RunBound(p, tc, w);
    var t := w'.trace;
    var lead, blocks := RunTrace(p, tc, w);
    forall k, m | 0 <= k < m < |t| && t[k].call.phase.ResourcePhase? && t[m].call.phase.ResourcePhase?
      ensures t[k].call.actor.id != t[m].call.actor.id
    {
      SentOnce(p, tc, t, lead, blocks, k, m);
    }
    forall k | 0 <= k < |t| && t[k].call.phase.ResourcePhase? && IsVerified(tc, t[k].call.actor.id)
      ensures 2 <= k && WriteIsGuarded(p.library, tc.verification.value, t, k)
    {
      WriteGuarded(p, tc, t, lead, blocks, k);
    }
    forall k | 0 <= k < |t| && (t[k].call.phase.VerificationPhase? || t[k].call.phase.ResetPhase?)
      ensures t[k].live
    {
      ReadIsLive(p, tc, t, lead, blocks, k);
    }
  }

  // ----- Cancellation -----

  lemma {:induction false} CancellationSticks<S>(p: Platform<S>, events: seq<Event<S>>, k: nat, m: nat)
    requires Answered(p, events) && Linked(events) && k < m < |events| && events[k].cancelled
    ensures !events[m].live && events[m].cancelled
    decreases m
  {
    if k < m - 1 {
      CancellationSticks(p, events, k, m - 1);
    }
    assert Follows(events[m - 1], events[m]) && AnswersRequest(p, events[m]);
  }

  lemma RunEvents<S>(p: Platform<S>, tc: TestCase, w: World<S>) returns (events: seq<Event<S>>)
    requires Sound(tc)
    ensures RunBound(p, tc, w).0.trace == w.trace + events && Answered(p, events) && Linked(events)
  {
    hide RunBound, Extends, Answered, Linked, ProbesOk, BlocksOk, ResultFollows, Sound;
    var probes, blocks := RunShape(p, tc, w);
    events := probes + Flatten(blocks);
    OfExtension(p, w, events, RunBound(p, tc, w).0);
  }

  /** Main result: once a request of the run ended in a cancellation, no later request is a
      verifier read, a reset or a verified write. */
  lemma WithheldAfterCancellation<S>(p: Platform<S>, tc: TestCase, w: World<S>, k: nat, m: nat)
    requires Sound(tc) && SetupOnly(w.trace)
    requires var t := RunBound(p, tc, w).0.trace; |w.trace| <= k < m < |t| && t[k].cancelled
    ensures var c := RunBound(p, tc, w).0.trace[m].call;
      && !c.phase.VerificationPhase? && !c.phase.ResetPhase?
      && (c.phase.ResourcePhase? ==> !IsVerified(tc, c.actor.id))
  {
    hide RunBound, Answered, Linked, Sound, SetupOnly, IsVerified;
    var t := RunBound(p, tc, w).0.trace;
    var events := RunEvents(p, tc, w);
    CancellationSticks(p, events, k - |w.trace|, m - |w.trace|);
    assert t[k] == events[k - |w.trace|] && t[m] == events[m - |w.trace|];
    TraceDiscipline(p, tc, w);
  }

  lemma OfExtension<S>(p: Platform<S>, w: World<S>, events: seq<Event<S>>, w': World<S>)
    requires Extends(p, w, events, w')
    ensures w'.trace == w.trace + events && Answered(p, events) && Linked(events)
  {
  }
}
