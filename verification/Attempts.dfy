/** What one verified attempt sends and concludes, against an arbitrary server:
    the shape of its requests, the exact meaning of its verdict, and soundness. */
module Attempts {
  import opened Basics
  import opened Json
  import opened Model
  import opened Server
  import opened Verify

  // ----- The requests of one attempt, by position -----

  function ResetCount(wv: WriteVerification): nat {
    if wv.reset.Some? then 1 else 0
  }

  /** The k-th request: a declared reset, two baseline reads, the write, the readback. */
  function AttemptCall(lib: Library, tc: TestCase, wv: WriteVerification, id: Identity, req: Request, k: nat): Call {
    if k == 0 && wv.reset.Some? then Call(ResetPhase, ResetActor(tc, wv.reset.value), wv.reset.value.request)
    else if k == ResetCount(wv) + 2 then Call(ResourcePhase, id, req)
    else ReaderCall(lib, wv)
  }

  /** Requests number offset, offset + 1, ... of an attempt, each started on a live run. */
  ghost predicate Calls<S>(lib: Library, tc: TestCase, wv: WriteVerification, id: Identity, req: Request, offset: nat,
      events: seq<Event<S>>) {
    forall k :: 0 <= k < |events| ==>
      events[k].call == AttemptCall(lib, tc, wv, id, req, offset + k) && events[k].live
  }

  // ----- The meaning of a verdict -----

  /** What validation establishes about a strategy and the statuses it may read back. */
  ghost predicate SoundStrategy(wv: WriteVerification) {
    && (HasTarget(wv) ==> !wv.strategy.Created? && !wv.strategy.Deleted? && Decode(wv.changedTo).Some?)
    && (forall i :: 0 <= i < |wv.afterStatus| ==> 400 <= wv.afterStatus[i] <= 499)
    && (wv.afterStatus != [] ==> wv.strategy.Changed?)
  }

  /** The strategy's effect happened between the two states. */
  ghost predicate Transition(wv: WriteVerification, before: Observed, after: Observed) {
    && (wv.changedTo.Raw? ==> before.value != Decode(wv.changedTo) && after.value == Decode(wv.changedTo))
    && match wv.strategy
       case Created => before.status == 404 && Success(after.status)
       case Deleted => Success(before.status) && after.status == 404
       case Changed =>
         && Success(before.status)
         && (after.status in wv.afterStatus || (Success(after.status) && after.value != before.value))
       case Legacy =>
         && Success(before.status)
         && (after.status == 404 || (Success(after.status) && after.value != before.value))
  }

  /** A reset counts as completed once its answer reports success, and not mere acceptance. */
  predicate Acknowledged(ex: Execution) {
    !ex.error && !ex.errorKind && 200 <= ex.status <= 299 && ex.status != 202
  }

  ghost predicate Baseline(wv: WriteVerification, first: Reading, again: Reading) {
    && first.reason.NoReason?
    && (if wv.strategy.Created? then first.state.status == 404 else 200 <= first.state.status <= 299)
    && again.reason.NoReason? && Same(again.state, first.state)
    && (HasTarget(wv) ==> first.state.value != Some(Target(wv)))
  }

  /** tail is the write and its readback. */
  ghost function TailVerdict<S>(wv: WriteVerification, before: Observed, tail: seq<Event<S>>): Verdict {
    if |tail| != 2 || tail[1].cancelled || wv.environment.Unknown? then Inconclusive
    else
      var write, after := tail[0].execution, Interpret(wv, tail[1].execution, true);
      if !after.reason.NoReason? then Inconclusive
      else if Transition(wv, before, after.state) then Allowed
      else if Same(after.state, before) && !write.error && !write.errorKind && write.status != 202 then Denied
      else Inconclusive
  }

  function FirstReading<S>(wv: WriteVerification, block: seq<Event<S>>): Reading
    requires |block| > ResetCount(wv)
  {
    Interpret(wv, block[ResetCount(wv)].execution, false)
  }

  ghost predicate Sent<S>(wv: WriteVerification, block: seq<Event<S>>) {
    |block| > ResetCount(wv) + 2
  }

  /** A write is only ever sent behind a completed reset and two equal usable reads. */
  ghost predicate Guarded<S>(wv: WriteVerification, block: seq<Event<S>>) {
    Sent(wv, block) ==>
      && (wv.reset.Some? ==> Acknowledged(block[0].execution))
      && Baseline(wv, FirstReading(wv, block), Interpret(wv, block[ResetCount(wv) + 1].execution, false))
  }

  ghost function BlockVerdict<S>(wv: WriteVerification, block: seq<Event<S>>): Verdict {
    if !Sent(wv, block) then Inconclusive
    else TailVerdict(wv, FirstReading(wv, block).state, block[ResetCount(wv) + 2..])
  }

  /** The recorded execution: the write's, or a failed one if it was withheld. */
  function BlockExecution<S>(wv: WriteVerification, block: seq<Event<S>>): Execution {
    if |block| > ResetCount(wv) + 2 then block[ResetCount(wv) + 2].execution
    else Execution(0, Absent, true, true, None)
  }

  // ----- Building blocks -----

  ghost predicate Extends<S>(p: Platform<S>, w: World<S>, events: seq<Event<S>>, w': World<S>) {
    && w'.trace == w.trace + events
    && Leads(events, w.state, w'.state)
    && Answered(p, events)
    && (w.cancelled ==> w'.cancelled)
    && (if events == [] then w'.cancelled == w.cancelled
        else events[0].live == !w.cancelled && events[|events| - 1].cancelled == w'.cancelled)
  }

  lemma ExtendsNothing<S>(p: Platform<S>, w: World<S>)
    ensures Extends(p, w, [], w)
  {
    assert w.trace + [] == w.trace;
  }

  lemma ExtendsTransitive<S>(p: Platform<S>, w: World<S>, a: seq<Event<S>>, v: World<S>, b: seq<Event<S>>, u: World<S>)
    requires Extends(p, w, a, v) && Extends(p, v, b, u)
    ensures Extends(p, w, a + b, u)
  {
    assert w.trace + (a + b) == (w.trace + a) + b;
    var ab := a + b;
    forall i | 0 < i < |ab|
      ensures Follows(ab[i - 1], ab[i])
    {
      if i == |a| {
        assert ab[i] == b[0] && ab[i - 1] == a[|a| - 1];
      } else if i > |a| {
        assert ab[i] == b[i - |a|] && ab[i - 1] == b[i - |a| - 1];
      }
    }
  }

  lemma SendExtends<S>(p: Platform<S>, w: World<S>, c: Call) returns (e: Event<S>)
    ensures Extends(p, w, [e], Send(p, w, c).0)
    ensures e.call == c && e.execution == Send(p, w, c).1 && e.live == !w.cancelled
      && e.cancelled == Send(p, w, c).0.cancelled
  {
    var reply := p.step(w.state, c);
    e := Event(c, w.state, reply.next, reply.execution, !w.cancelled, w.cancelled || reply.cancel);
  }

  lemma CallsConcat<S>(lib: Library, tc: TestCase, wv: WriteVerification, id: Identity, req: Request, offset: nat,
      a: seq<Event<S>>, b: seq<Event<S>>)
    requires Calls(lib, tc, wv, id, req, offset, a) && Calls(lib, tc, wv, id, req, offset + |a|, b)
    ensures Calls(lib, tc, wv, id, req, offset, a + b)
  {
    forall k | 0 <= k < |a + b|
      ensures (a + b)[k].call == AttemptCall(lib, tc, wv, id, req, offset + k) && (a + b)[k].live
    {
      if k >= |a| {
        assert (a + b)[k] == b[k - |a|];
      }
    }
  }

  /** An observation is one live read, or nothing once the run is cancelled. */
  lemma ObserveExtends<S>(p: Platform<S>, wv: WriteVerification, w: World<S>,
      after: bool) returns (events: seq<Event<S>>)
    ensures var (w', r) := Observe(p, wv, w, after);
      && Extends(p, w, events, w')
      && |events| == (if w.cancelled then 0 else 1)
      && (events != [] ==>
            events[0].call == ReaderCall(p.library, wv) && events[0].live && events[0].cancelled == w'.cancelled)
      && r == if w'.cancelled then Reading(NOTHING, Cancelled) else Interpret(wv, events[0].execution, after)
  {
    if w.cancelled {
      events := [];
      ExtendsNothing(p, w);
    } else {
      var e := SendExtends(p, w, ReaderCall(p.library, wv));
      events := [e];
    }
  }

  // ----- One attempt, stage by stage -----

  lemma JudgeIsVerdict(wv: WriteVerification, before: Observed, ex: Execution, after: Reading)
    requires after.reason.NoReason? && UsableBaseline(wv, before)
    requires SoundStrategy(wv) && (HasTarget(wv) ==> before.value != Some(Target(wv)))
    requires Success(after.state.status)
      || (after.state.value.None?
        && (after.state.status in wv.afterStatus || (after.state.status == 404 && !wv.strategy.Changed?)))
    requires before.status == 404 ==> before.value.None?
    requires !wv.environment.Unknown?
    ensures Judge(wv, before, ex, after).0
         == if Transition(wv, before, after.state) then Allowed
            else if Same(after.state, before) && !ex.error && !ex.errorKind && ex.status != 202 then Denied
            else Inconclusive
  {
  }

  /** What makes a read usable, and what it then establishes: a completed answer with a reviewed
      status, a success with a selectable value if one is asked for, or an absent resource. Any other
      read establishes its status and says why it is of no use. */
  lemma ReadingMeans(wv: WriteVerification, ex: Execution, after: bool)
    requires Pointer.Tokens(wv.pointer).Some?
    ensures var reviewed := after && ex.status in wv.afterStatus;
      var selected := if wv.pointer == "" || Decode(ex.body).None? then None
        else Pointer.Evaluate(Decode(ex.body).value, wv.pointer);
      var r := Interpret(wv, ex, after);
      && (r.reason.NoReason? <==>
            && !ex.error && !ex.errorKind
            && (reviewed || (200 <= ex.status <= 299 && (wv.pointer == "" || selected.Some?)) || (ex.status == 404
              && !wv.strategy.Changed?)))
      && r.state == Observed(ex.status,
        if reviewed || ex.error || ex.errorKind || !(200 <= ex.status <= 299) then None else selected)
      && (r.reason.NoReason? || r.reason == Unreadable(wv, ex))
  {
    hide Pointer.Tokens, Pointer.PointerValueOf, Decode;
  }

  /** Why a read that is not usable is refused. */
  function Unreadable(wv: WriteVerification, ex: Execution): Reason {
    if ex.error || ex.errorKind || ex.status >= 500 then VerifierReadFailed
    else if ex.status == 401 || ex.status == 403 then VerifierDenied
    else if 200 <= ex.status <= 299 then VerifierValueMissing
    else VerifierStatus
  }

  // A readable state is a success, a reviewed status, or an absent resource.
  lemma ReadableStates(wv: WriteVerification, ex: Execution, after: bool)
    requires Interpret(wv, ex, after).reason.NoReason?
    ensures var st := Interpret(wv, ex, after).state;
      || (Success(st.status) && (wv.pointer == "" <==> st.value.None?))
      || (st.value.None? && ((after && st.status in wv.afterStatus) || (st.status == 404 && !wv.strategy.Changed?)))
  {
  }

  lemma WriteStage<S>(p: Platform<S>, tc: TestCase, wv: WriteVerification, id: Identity, req: Request,
      ea: ExpectedAccess, w: World<S>, session: Option<Observed>, before: Observed,
      evidence: Evidence) returns (tail: seq<Event<S>>)
    requires SoundStrategy(wv) && !w.cancelled && UsableBaseline(wv, before)
    requires before.status == 404 ==> before.value.None?
    requires HasTarget(wv) ==> before.value != Some(Target(wv))
    ensures var a := WriteAndRead(p, wv, id, req, ea, w, session, before, evidence);
      && Extends(p, w, tail, a.world)
      && 1 <= |tail| <= 2 && Calls(p.library, tc, wv, id, req, ResetCount(wv) + 2, tail)
      && a.execution == tail[0].execution && a.session == session
      && a.assessment.decision == TailVerdict(wv, before, tail)
  {
    hide Judge, Interpret, Transition, Send, Observe, Extends, UsableBaseline;
    var (w4, ex) := Send(p, w, Call(ResourcePhase, id, req));
    var e := SendExtends(p, w, Call(ResourcePhase, id, req));
    var rest := ObserveExtends(p, wv, w4, true);
    var (w5, after) := Observe(p, wv, w4, true);
    tail := [e] + rest;
    ExtendsTransitive(p, w, [e], w4, rest, w5);
    if w5.cancelled || !after.reason.NoReason? || wv.environment.Unknown? {
      InconclusiveJudgement(wv, before, ex, after);
    } else {
      ReadableStates(wv, rest[0].execution, true);
      JudgeIsVerdict(wv, before, ex, after);
    }
  }

  lemma InconclusiveJudgement(wv: WriteVerification, before: Observed, ex: Execution, after: Reading)
    requires !after.reason.NoReason? || wv.environment.Unknown?
    ensures Judge(wv, before, ex, after).0.Inconclusive?
  {
  }

  /** The second read and everything behind it, seen from a usable first read. */
  ghost predicate LaterStages<S>(p: Platform<S>, tc: TestCase, wv: WriteVerification, id: Identity, req: Request,
      session: Option<Observed>, before: Observed, events: seq<Event<S>>, a: Attempt<S>)
  {
    && Calls(p.library, tc, wv, id, req, ResetCount(wv) + 1, events)
    && |events| <= 3
    && (|events| > 1 ==>
          var again := Interpret(wv, events[0].execution, false);
          && again.reason.NoReason? && Same(again.state, before)
          && (HasTarget(wv) ==> before.value != Some(Target(wv)))
          && a.assessment.decision == TailVerdict(wv, before, events[1..])
          && a.execution == events[1].execution
          && a.session == SessionAfter(wv, session, before)
          && SessionReason(wv, session, before).NoReason?)
    && (|events| <= 1 ==> a.assessment.decision.Inconclusive? && a.execution == WITHHELD)
    && (a.session == session || (session.None? && wv.reset.Some? && a.session == Some(before)))
  }

  lemma SecondStage<S>(p: Platform<S>, tc: TestCase, wv: WriteVerification, id: Identity, req: Request,
      ea: ExpectedAccess, w: World<S>, session: Option<Observed>, before: Observed,
      evidence: Evidence) returns (events: seq<Event<S>>)
    requires SoundStrategy(wv) && UsableBaseline(wv, before) && (before.status == 404 ==> before.value.None?)
    ensures var a := AfterFirstRead(p, wv, id, req, ea, w, session, before, evidence);
      Extends(p, w, events, a.world) && LaterStages(p, tc, wv, id, req, session, before, events, a)
  {
    hide Observe, Interpret, TailVerdict, Extends, WriteAndRead, Judge;
    var (w3, again) := Observe(p, wv, w, false);
    var read := ObserveExtends(p, wv, w, false);
    var evidence' := evidence.(beforeStatuses := evidence.beforeStatuses + [again.state.status]);
    events := read;
    if SecondReadReason(wv, before, again).NoReason? && SessionReason(wv, session, before).NoReason? && !w3.cancelled {
      var session' := SessionAfter(wv, session, before);
      var tail := WriteStage(p, tc, wv, id, req, ea, w3, session', before, evidence');
      var a := WriteAndRead(p, wv, id, req, ea, w3, session', before, evidence');
      events := read + tail;
      ExtendsTransitive(p, w, read, w3, tail, a.world);
      LiveBefore(p, w, read, w3);
      assert |read| == 1 && events[1..] == tail;
      CallsConcat(p.library, tc, wv, id, req, ResetCount(wv) + 1, read, tail);
    }
  }

  lemma LiveBefore<S>(p: Platform<S>, w: World<S>, events: seq<Event<S>>, w': World<S>)
    requires Extends(p, w, events, w') && !w'.cancelled
    ensures !w.cancelled
  {
  }

  /** What every attempt does, whatever the server answers. */
  ghost predicate Disciplined<S>(p: Platform<S>, tc: TestCase, wv: WriteVerification, id: Identity, req: Request,
      session: Option<Observed>, block: seq<Event<S>>, a: Attempt<S>)
  {
    && |block| <= ResetCount(wv) + 4
    && Calls(p.library, tc, wv, id, req, 0, block)
    && Guarded(wv, block)
    && a.assessment.decision == BlockVerdict(wv, block)
    && a.execution == BlockExecution(wv, block)
    && (Sent(wv, block) && wv.reset.Some? ==> a.session.Some? && Same(a.session.value, FirstReading(wv, block).state))
    && (session.Some? || wv.reset.None? ==> a.session == session)
  }

  /** Main result: an attempt sends at most a reset, two reads, one write and a readback, in that
      order and never on a cancelled run; the write only behind two equal usable baseline reads;
      and its verdict is exactly the one the exchanged states justify. */
  lemma AttemptDiscipline<S>(p: Platform<S>, tc: TestCase, wv: WriteVerification, id: Identity, req: Request,
      ea: ExpectedAccess, w: World<S>, session: Option<Observed>) returns (block: seq<Event<S>>)
    requires SoundStrategy(wv)
    ensures var a := VerifiedExecute(p, tc, wv, id, req, ea, w, session);
      Extends(p, w, block, a.world) && Disciplined(p, tc, wv, id, req, session, block, a)
  {
    hide Observe, Interpret, TailVerdict, Extends, AfterFirstRead, Send, Calls;
    var a := VerifiedExecute(p, tc, wv, id, req, ea, w, session);
    block := [];
    if w.cancelled {
      ExtendsNothing(p, w);
      NoCalls(p, tc, wv, id, req);
    } else {
      var (w1, status, done) := ResetSent(p, tc, wv, w);
      var reset := ResetStage(p, tc, wv, id, req, w);
      block := reset;
      if done {
        var (w2, first) := Observe(p, wv, w1, false);
        var read := ObserveStage(p, tc, wv, id, req, w1, ResetCount(wv), false);
        block := reset + read;
        ExtendsTransitive(p, w, reset, w1, read, w2);
        CallsConcat(p.library, tc, wv, id, req, 0, reset, read);
        var evidence := Evidence([first.state.status], 0, status);
        if FirstReadReason(wv, first).NoReason? {
          ReadNoValue(wv, read[0].execution);
          var events := SecondStage(p, tc, wv, id, req, ea, w2, session, first.state, evidence);
          block := reset + read + events;
          ExtendsTransitive(p, w, reset + read, w2, events, a.world);
          CallsConcat(p.library, tc, wv, id, req, 0, reset + read, events);
          BlockParts(wv, reset, read, events);
        }
      }
    }
  }

  // ----- How far an attempt gets -----

  /** Exactly when each request of an attempt goes out. */
  ghost predicate Proceeds<S>(wv: WriteVerification, session: Option<Observed>, live: bool, block: seq<Event<S>>) {
    var r := ResetCount(wv);
    && (|block| > 0 <==> live)
    && (|block| > r <==> |block| > 0 && (r == 1 ==> Acknowledged(block[0].execution) && !block[0].cancelled))
    && (|block| > r + 1 <==>
          |block| > r && !block[r].cancelled && FirstReadReason(wv, Interpret(wv, block[r].execution, false)).NoReason?)
    && (|block| > r + 2 <==>
          && |block| > r + 1 && !block[r + 1].cancelled
          && Baseline(wv, FirstReading(wv, block), Interpret(wv, block[r + 1].execution, false))
          && SessionReason(wv, session, FirstReading(wv, block).state).NoReason?)
    && (|block| > r + 3 <==> |block| > r + 2 && !block[r + 2].cancelled)
  }

  lemma TailProceeds<S>(p: Platform<S>, wv: WriteVerification, id: Identity, req: Request, ea: ExpectedAccess,
      w: World<S>, session: Option<Observed>, before: Observed, evidence: Evidence) returns (tail: seq<Event<S>>)
    requires !w.cancelled
    ensures WriteAndRead(p, wv, id, req, ea, w, session, before, evidence).world.trace == w.trace + tail
    ensures 1 <= |tail| <= 2 && (|tail| == 2 <==> !tail[0].cancelled)
  {
    hide Judge, Interpret, Send, Observe;
    var (w4, ex) := Send(p, w, Call(ResourcePhase, id, req));
    var e := SendExtends(p, w, Call(ResourcePhase, id, req));
    var rest := ObserveExtends(p, wv, w4, true);
    tail := [e] + rest;
    assert w.trace + tail == (w.trace + [e]) + rest;
  }

  lemma SecondProceeds<S>(p: Platform<S>, wv: WriteVerification, id: Identity, req: Request, ea: ExpectedAccess,
      w: World<S>, session: Option<Observed>, before: Observed, evidence: Evidence) returns (events: seq<Event<S>>)
    ensures AfterFirstRead(p, wv, id, req, ea, w, session, before, evidence).world.trace == w.trace + events
    ensures |events| <= 3 && (|events| > 0 <==> !w.cancelled)
    ensures |events| > 1 <==>
      && |events| > 0 && !events[0].cancelled
      && SecondReadReason(wv, before, Interpret(wv, events[0].execution, false)).NoReason?
      && SessionReason(wv, session, before).NoReason?
    ensures |events| > 2 <==> |events| > 1 && !events[1].cancelled
  {
    hide Interpret, Observe, WriteAndRead, SessionReason;
    var (w3, again) := Observe(p, wv, w, false);
    var read := ObserveExtends(p, wv, w, false);
    events := read;
    if SecondReadReason(wv, before, again).NoReason? && SessionReason(wv, session, before).NoReason? && !w3.cancelled {
      LiveBefore(p, w, read, w3);
      var tail := TailProceeds(p, wv, id, req, ea, w3, SessionAfter(wv, session, before), before,
                               evidence.(beforeStatuses := evidence.beforeStatuses + [again.state.status]));
      events := read + tail;
      assert w.trace + events == (w.trace + read) + tail;
      assert events[0] == read[0] && events[1] == tail[0];
    }
  }

  /** Main result, the converse of the discipline: a live attempt resets, reads twice, writes and reads
      back, stopping exactly at the first step that fails, disagrees or is cancelled; in particular two
      equal usable reads of an agreeing baseline on a live run do send the write. */
  lemma AttemptProceeds<S>(p: Platform<S>, tc: TestCase, wv: WriteVerification, id: Identity, req: Request,
      ea: ExpectedAccess, w: World<S>, session: Option<Observed>, block: seq<Event<S>>)
    requires Extends(p, w, block, VerifiedExecute(p, tc, wv, id, req, ea, w, session).world)
    ensures Proceeds(wv, session, !w.cancelled, block)
  {
    hide Observe, Interpret, AfterFirstRead, SessionReason, Acknowledged, SecondReadReason, FirstReadReason;
    var a := VerifiedExecute(p, tc, wv, id, req, ea, w, session);
    if w.cancelled {
      assert w.trace + block == w.trace;
    } else {
      var (w1, status, done) := ResetSent(p, tc, wv, w);
      var reset := ResetEvents(p, tc, wv, w);
      if !done {
        assert block == reset by { SameSuffix(w.trace, block, reset); }
      } else {
        var (w2, first) := Observe(p, wv, w1, false);
        var read := ObserveExtends(p, wv, w1, false);
        assert w.trace + (reset + read) == (w.trace + reset) + read;
        if !FirstReadReason(wv, first).NoReason? {
          assert block == reset + read by { SameSuffix(w.trace, block, reset + read); }
          CancelledReason(wv, w2.cancelled, first);
        } else {
          var events := SecondProceeds(p, wv, id, req, ea, w2, session, first.state,
            Evidence([first.state.status], 0, status));
          assert w.trace + (reset + read + events) == ((w.trace + reset) + read) + events;
          assert block == reset + read + events by { SameSuffix(w.trace, block, reset + read + events); }
          NotCancelled(wv, first);
          ReadIsBaseline(wv, first, if events == [] then first else Interpret(wv, events[0].execution, false));
        }
      }
    }
  }

  lemma SameSuffix<T>(t: seq<T>, a: seq<T>, b: seq<T>)
    requires t + a == t + b
    ensures a == b
  {
    assert (t + a)[|t|..] == a && (t + b)[|t|..] == b;
  }

  lemma ResetEvents<S>(p: Platform<S>, tc: TestCase, wv: WriteVerification, w: World<S>) returns (reset: seq<Event<S>>)
    requires !w.cancelled
    ensures var (w1, status, done) := ResetSent(p, tc, wv, w);
      && |reset| == ResetCount(wv) && w1.trace == w.trace + reset
      && (wv.reset.Some? ==> done == Acknowledged(reset[0].execution) && w1.cancelled == reset[0].cancelled)
      && (wv.reset.Some? ==> status == reset[0].execution.status)
      && (wv.reset.None? ==> done && !w1.cancelled && status == 0)
  {
    reset := [];
    assert w.trace + [] == w.trace;
    if wv.reset.Some? {
      var e := SendExtends(p, w, Call(ResetPhase, ResetActor(tc, wv.reset.value), wv.reset.value.request));
      reset := [e];
    }
  }

  lemma CancelledReason(wv: WriteVerification, cancelled: bool, first: Reading)
    ensures first == Reading(NOTHING, Cancelled) ==> !FirstReadReason(wv, first).NoReason?
  {
  }

  lemma NotCancelled(wv: WriteVerification, first: Reading)
    requires FirstReadReason(wv, first).NoReason?
    ensures first != Reading(NOTHING, Cancelled) && first.reason.NoReason? && UsableBaseline(wv, first.state)
  {
  }

  lemma ReadIsBaseline(wv: WriteVerification, first: Reading, again: Reading)
    requires first.reason.NoReason? && UsableBaseline(wv, first.state)
    ensures Baseline(wv, first, again) <==> SecondReadReason(wv, first.state, again).NoReason?
  {
  }

  lemma NoCalls<S>(p: Platform<S>, tc: TestCase, wv: WriteVerification, id: Identity, req: Request)
    ensures Calls<S>(p.library, tc, wv, id, req, 0, [])
  {
  }

  lemma ResetStage<S>(p: Platform<S>, tc: TestCase, wv: WriteVerification, id: Identity, req: Request,
      w: World<S>) returns (events: seq<Event<S>>)
    requires !w.cancelled
    ensures var (w1, status, done) := ResetSent(p, tc, wv, w);
      && Extends(p, w, events, w1) && |events| == ResetCount(wv) && Calls(p.library, tc, wv, id, req, 0, events)
      && (wv.reset.Some? ==> done == Acknowledged(events[0].execution))
  {
    if wv.reset.None? {
      events := [];
      ExtendsNothing(p, w);
    } else {
      var e := SendExtends(p, w, Call(ResetPhase, ResetActor(tc, wv.reset.value), wv.reset.value.request));
      events := [e];
    }
  }

  lemma ObserveStage<S>(p: Platform<S>, tc: TestCase, wv: WriteVerification, id: Identity, req: Request, w: World<S>,
      offset: nat, after: bool)
    returns (events: seq<Event<S>>)
    requires offset >= ResetCount(wv) && offset != ResetCount(wv) + 2
    ensures var (w', r) := Observe(p, wv, w, after);
      && Extends(p, w, events, w') && |events| <= 1
      && Calls(p.library, tc, wv, id, req, offset, events)
      && (r.reason.NoReason? ==> |events| == 1 && r == Interpret(wv, events[0].execution, after))
  {
    events := ObserveExtends(p, wv, w, after);
  }

  lemma ReadNoValue(wv: WriteVerification, ex: Execution)
    ensures var st := Interpret(wv, ex, false).state; st.status == 404 ==> st.value.None?
  {
  }

  lemma BlockParts<S>(wv: WriteVerification, reset: seq<Event<S>>, read: seq<Event<S>>, events: seq<Event<S>>)
    requires |reset| == ResetCount(wv) && |read| == 1
    ensures var block := reset + read + events;
      && |block| == ResetCount(wv) + 1 + |events|
      && block[ResetCount(wv)] == read[0]
      && (reset != [] ==> block[0] == reset[0])
      && (events != [] ==> block[ResetCount(wv) + 1] == events[0] && block[ResetCount(wv) + 2..] == events[1..])
  {
    var block := reset + read + events;
    assert block[ResetCount(wv) + 1..] == events;
    if events != [] {
      assert block[ResetCount(wv) + 2..] == block[ResetCount(wv) + 1..][1..];
    }
  }

  // ----- Soundness against an honest server -----

  /** Verifier reads change nothing; what they answer is then a function of the state. */
  ghost predicate QuietReads<S(!new)>(p: Platform<S>) {
    forall s: S, c: Call :: c.phase.VerificationPhase? ==> p.step(s, c).next == s
  }

  /** Main result: no request that left the server's state unchanged is ever judged allowed. */
  lemma AllowedMeansChanged<S(!new)>(p: Platform<S>, tc: TestCase, wv: WriteVerification, id: Identity, req: Request,
      ea: ExpectedAccess, w: World<S>, session: Option<Observed>)
    requires SoundStrategy(wv) && QuietReads(p)
    ensures var a := VerifiedExecute(p, tc, wv, id, req, ea, w, session);
      a.assessment.decision.Allowed? ==>
        exists k :: |w.trace| <= k < |a.world.trace| && a.world.trace[k].call == Call(ResourcePhase, id, req)
          && a.world.trace[k].before != a.world.trace[k].after
  {
    var a := VerifiedExecute(p, tc, wv, id, req, ea, w, session);
    var block := AttemptDiscipline(p, tc, wv, id, req, ea, w, session);
    if a.assessment.decision.Allowed? {
      AllowedBlockChanged(p, tc, wv, id, req, block);
      var r := ResetCount(wv);
      assert a.world.trace[|w.trace| + r + 2] == block[r + 2];
    }
  }

  /** A block judged allowed holds a write that changed the state. */
  lemma AllowedBlockChanged<S(!new)>(p: Platform<S>, tc: TestCase, wv: WriteVerification, id: Identity, req: Request,
      block: seq<Event<S>>)
    requires SoundStrategy(wv) && QuietReads(p)
    requires Answered(p, block) && Linked(block) && Calls(p.library, tc, wv, id, req, 0, block)
    requires Guarded(wv, block) && BlockVerdict(wv, block).Allowed?
    ensures |block| == ResetCount(wv) + 4
    ensures var e := block[ResetCount(wv) + 2]; e.call == Call(ResourcePhase, id, req) && e.before != e.after
  {
    hide Interpret, Transition;
    var r := ResetCount(wv);
    var first, second, write, last := block[r], block[r + 1], block[r + 2], block[r + 3];
    assert first.call == second.call == last.call == ReaderCall(p.library, wv);
    assert write.call == AttemptCall(p.library, tc, wv, id, req, r + 2);
    if write.before == write.after {
      assert first.before == second.before == write.before == last.before;
      assert first.execution == last.execution;
      SameReadNoTransition(wv, first.execution);
    }
  }

  lemma SameReadNoTransition(wv: WriteVerification, ex: Execution)
    requires SoundStrategy(wv)
    requires Interpret(wv, ex, false).reason.NoReason? && UsableBaseline(wv, Interpret(wv, ex, false).state)
    ensures !Transition(wv, Interpret(wv, ex, false).state, Interpret(wv, ex, true).state)
  {
  }
}
