/** Runs on a wrapped server: if every request it received was answered by the server inside,
    the run's outcome is that of the same run without the wrapper. */
module Transparency {
  import opened Basics
  import opened Model
  import opened Server
  import opened Verify
  import opened Validation
  import opened Judgement
  import opened Setup
  import opened Engine

  // ----- Looking through the wrapper -----

  function InnerEvent<T, S>(inner: T -> S, e: Event<T>): Event<S> {
    Event(e.call, inner(e.before), inner(e.after), e.execution, e.live, e.cancelled)
  }

  function InnerTrace<T, S>(inner: T -> S, t: seq<Event<T>>): seq<Event<S>> {
    seq(|t|, i requires 0 <= i < |t| => InnerEvent(inner, t[i]))
  }

  function InnerWorld<T, S>(inner: T -> S, w: World<T>): World<S> {
    World(inner(w.state), w.cancelled, InnerTrace(inner, w.trace))
  }

  /** The inner server itself answered this request. */
  ghost predicate Passed<T, S>(p: Platform<S>, inner: T -> S, e: Event<T>) {
    var reply := p.step(inner(e.before), e.call);
    e.execution == reply.execution && inner(e.after) == reply.next && e.cancelled == (!e.live || reply.cancel)
  }

  ghost predicate AllPass<T, S>(p: Platform<S>, inner: T -> S, t: seq<Event<T>>) {
    forall i :: 0 <= i < |t| ==> Passed(p, inner, t[i])
  }

  lemma PassPrefix<T, S>(p: Platform<S>, inner: T -> S, s: seq<Event<T>>, t: seq<Event<T>>)
    requires AllPass(p, inner, t) && s <= t
    ensures AllPass(p, inner, s)
  {
    assert forall i :: 0 <= i < |s| ==> s[i] == t[i];
  }

  // ----- One request -----

  lemma SameSend<T, S>(q: Platform<T>, p: Platform<S>, inner: T -> S, w: World<T>, c: Call)
    requires AllPass(p, inner, Send(q, w, c).0.trace)
    ensures var (v, ex) := Send(q, w, c);
      w.trace <= v.trace && (InnerWorld(inner, v), ex) == Send(p, InnerWorld(inner, w), c)
  {
    var (v, ex) := Send(q, w, c);
    var e := v.trace[|w.trace|];
    assert v.trace == w.trace + [e] && Passed(p, inner, e);
    assert InnerTrace(inner, w.trace + [e]) == InnerTrace(inner, w.trace) + [InnerEvent(inner, e)];
  }

  lemma SendGrows<T>(q: Platform<T>, w: World<T>, c: Call)
    ensures w.trace <= Send(q, w, c).0.trace
  {
  }

  // ----- One attempt -----

  lemma ObserveGrows<T>(q: Platform<T>, wv: WriteVerification, w: World<T>, after: bool)
    ensures w.trace <= Observe(q, wv, w, after).0.trace
  {
    hide Interpret;
  }

  lemma SameObserve<T, S>(q: Platform<T>, p: Platform<S>, inner: T -> S, wv: WriteVerification, w: World<T>,
      after: bool)
    requires q.library == p.library && AllPass(p, inner, Observe(q, wv, w, after).0.trace)
    ensures var (v, r) := Observe(q, wv, w, after);
      (InnerWorld(inner, v), r) == Observe(p, wv, InnerWorld(inner, w), after)
  {
    hide Interpret, Send, AllPass, InnerTrace;
    if !w.cancelled {
      SameSend(q, p, inner, w, ReaderCall(q.library, wv));
    }
  }

  lemma ResetGrows<T>(q: Platform<T>, tc: TestCase, wv: WriteVerification, w: World<T>)
    ensures w.trace <= ResetSent(q, tc, wv, w).0.trace
  {
  }

  lemma SameReset<T, S>(q: Platform<T>, p: Platform<S>, inner: T -> S, tc: TestCase, wv: WriteVerification, w: World<T>)
    requires AllPass(p, inner, ResetSent(q, tc, wv, w).0.trace)
    ensures var (v, status, done) := ResetSent(q, tc, wv, w);
      (InnerWorld(inner, v), status, done) == ResetSent(p, tc, wv, InnerWorld(inner, w))
  {
    hide Send, AllPass, InnerTrace;
    if wv.reset.Some? {
      SameSend(q, p, inner, w, Call(ResetPhase, ResetActor(tc, wv.reset.value), wv.reset.value.request));
    }
  }

  function InnerAttempt<T, S>(inner: T -> S, a: Attempt<T>): Attempt<S> {
    Attempt(InnerWorld(inner, a.world), a.session, a.execution, a.assessment)
  }

  lemma WriteGrows<T>(q: Platform<T>, wv: WriteVerification, id: Identity, req: Request, ea: ExpectedAccess,
      w: World<T>, session: Option<Observed>, before: Observed, evidence: Evidence)
    ensures w.trace <= WriteAndRead(q, wv, id, req, ea, w, session, before, evidence).world.trace
  {
    hide Send, Observe, Judge;
    SendGrows(q, w, Call(ResourcePhase, id, req));
    ObserveGrows(q, wv, Send(q, w, Call(ResourcePhase, id, req)).0, true);
  }

  lemma SameWrite<T, S>(q: Platform<T>, p: Platform<S>, inner: T -> S, wv: WriteVerification, id: Identity,
      req: Request, ea: ExpectedAccess, w: World<T>, session: Option<Observed>, before: Observed, evidence: Evidence)
    requires q.library == p.library
    requires AllPass(p, inner, WriteAndRead(q, wv, id, req, ea, w, session, before, evidence).world.trace)
    ensures InnerAttempt(inner, WriteAndRead(q, wv, id, req, ea, w, session, before, evidence))
         == WriteAndRead(p, wv, id, req, ea, InnerWorld(inner, w), session, before, evidence)
  {
    hide Send, Observe, Judge, AllPass, InnerTrace;
    var (w4, ex) := Send(q, w, Call(ResourcePhase, id, req));
    ObserveGrows(q, wv, w4, true);
    PassPrefix(p, inner, w4.trace, Observe(q, wv, w4, true).0.trace);
    SameSend(q, p, inner, w, Call(ResourcePhase, id, req));
    SameObserve(q, p, inner, wv, w4, true);
  }

  lemma SecondGrows<T>(q: Platform<T>, wv: WriteVerification, id: Identity, req: Request, ea: ExpectedAccess,
      w: World<T>, session: Option<Observed>, before: Observed, evidence: Evidence)
    ensures Observe(q, wv, w, false).0.trace <= AfterFirstRead(q, wv, id, req, ea, w, session, before,
      evidence).world.trace
    ensures w.trace <= AfterFirstRead(q, wv, id, req, ea, w, session, before, evidence).world.trace
  {
    hide Observe, WriteAndRead, SecondReadReason, SessionReason;
    ObserveGrows(q, wv, w, false);
    var (w3, again) := Observe(q, wv, w, false);
    WriteGrows(q, wv, id, req, ea, w3, SessionAfter(wv, session, before), before,
               evidence.(beforeStatuses := evidence.beforeStatuses + [again.state.status]));
  }

  lemma SameSecond<T, S>(q: Platform<T>, p: Platform<S>, inner: T -> S, wv: WriteVerification, id: Identity,
      req: Request, ea: ExpectedAccess, w: World<T>, session: Option<Observed>, before: Observed, evidence: Evidence)
    requires q.library == p.library
    requires AllPass(p, inner, AfterFirstRead(q, wv, id, req, ea, w, session, before, evidence).world.trace)
    ensures InnerAttempt(inner, AfterFirstRead(q, wv, id, req, ea, w, session, before, evidence))
         == AfterFirstRead(p, wv, id, req, ea, InnerWorld(inner, w), session, before, evidence)
  {
    hide Observe, WriteAndRead, SecondReadReason, SessionReason, SessionAfter, AllPass, InnerTrace;
    SecondGrows(q, wv, id, req, ea, w, session, before, evidence);
    var (w3, again) := Observe(q, wv, w, false);
    PassPrefix(p, inner, w3.trace, AfterFirstRead(q, wv, id, req, ea, w, session, before, evidence).world.trace);
    SameObserve(q, p, inner, wv, w, false);
    if SecondReadReason(wv, before, again).NoReason? && SessionReason(wv, session, before).NoReason? && !w3.cancelled {
      SameWrite(q, p, inner, wv, id, req, ea, w3, SessionAfter(wv, session, before), before,
                evidence.(beforeStatuses := evidence.beforeStatuses + [again.state.status]));
    }
  }

  lemma AttemptGrows<T>(q: Platform<T>, tc: TestCase, wv: WriteVerification, id: Identity, req: Request,
      ea: ExpectedAccess, w: World<T>, session: Option<Observed>)
    ensures var a := VerifiedExecute(q, tc, wv, id, req, ea, w, session);
      && w.trace <= a.world.trace
      && (!w.cancelled ==>
            var (w1, status, done) := ResetSent(q, tc, wv, w);
            && w1.trace <= a.world.trace
            && (done ==> Observe(q, wv, w1, false).0.trace <= a.world.trace))
  {
    hide ResetSent, Observe, AfterFirstRead, FirstReadReason;
    if !w.cancelled {
      ResetGrows(q, tc, wv, w);
      var (w1, status, done) := ResetSent(q, tc, wv, w);
      ObserveGrows(q, wv, w1, false);
      var (w2, first) := Observe(q, wv, w1, false);
      SecondGrows(q, wv, id, req, ea, w2, session, first.state, Evidence([first.state.status], 0, status));
    }
  }

  lemma SameAttempt<T, S>(q: Platform<T>, p: Platform<S>, inner: T -> S, tc: TestCase, wv: WriteVerification,
      id: Identity, req: Request, ea: ExpectedAccess, w: World<T>, session: Option<Observed>)
    requires q.library == p.library
      && AllPass(p, inner, VerifiedExecute(q, tc, wv, id, req, ea, w, session).world.trace)
    ensures InnerAttempt(inner, VerifiedExecute(q, tc, wv, id, req, ea, w, session))
         == VerifiedExecute(p, tc, wv, id, req, ea, InnerWorld(inner, w), session)
  {
    hide ResetSent, Observe, AfterFirstRead, FirstReadReason, AllPass, InnerTrace;
    var t := VerifiedExecute(q, tc, wv, id, req, ea, w, session).world.trace;
    AttemptGrows(q, tc, wv, id, req, ea, w, session);
    if !w.cancelled {
      var (w1, status, done) := ResetSent(q, tc, wv, w);
      PassPrefix(p, inner, w1.trace, t);
      SameReset(q, p, inner, tc, wv, w);
      if done {
        var (w2, first) := Observe(q, wv, w1, false);
        PassPrefix(p, inner, w2.trace, t);
        SameObserve(q, p, inner, wv, w1, false);
        if FirstReadReason(wv, first).NoReason? {
          SameSecond(q, p, inner, wv, id, req, ea, w2, session, first.state, Evidence([first.state.status], 0, status));
        }
      }
    }
  }

  // ----- The phases -----

  function InnerPass<T, S>(inner: T -> S, pass: Pass<T>): Pass<S> {
    Pass(InnerWorld(inner, pass.world), pass.session, pass.executions, pass.verified)
  }

  lemma OneGrows<T>(q: Platform<T>, tc: TestCase, id: Identity, pass: Pass<T>)
    ensures pass.world.trace <= ExecuteOne(q, tc, id, pass).world.trace
  {
    hide VerifiedExecute, Send;
    if IsVerified(tc, id.id) {
      AttemptGrows(q, tc, tc.verification.value, id, TestRequest(tc), ExpectedFor(tc.expected, id.id).value,
        pass.world, pass.session);
    } else {
      SendGrows(q, pass.world, Call(ResourcePhase, id, TestRequest(tc)));
    }
  }

  lemma SameOne<T, S>(q: Platform<T>, p: Platform<S>, inner: T -> S, tc: TestCase, id: Identity, pass: Pass<T>)
    requires q.library == p.library && AllPass(p, inner, ExecuteOne(q, tc, id, pass).world.trace)
    ensures InnerPass(inner, ExecuteOne(q, tc, id, pass)) == ExecuteOne(p, tc, id, InnerPass(inner, pass))
  {
    hide VerifiedExecute, Send, AllPass, InnerTrace, Reclassified, Demoted;
    if IsVerified(tc, id.id) {
      SameAttempt(q, p, inner, tc, tc.verification.value, id, TestRequest(tc), ExpectedFor(tc.expected, id.id).value,
        pass.world, pass.session);
    } else {
      SameSend(q, p, inner, pass.world, Call(ResourcePhase, id, TestRequest(tc)));
    }
  }

  lemma {:induction false} AllGrows<T>(q: Platform<T>, tc: TestCase, order: seq<Identity>, pass: Pass<T>)
    ensures pass.world.trace <= ExecuteAll(q, tc, order, pass).world.trace
    decreases |order|
  {
    hide ExecuteOne;
    if order != [] {
      OneGrows(q, tc, order[0], pass);
      AllGrows(q, tc, order[1..], ExecuteOne(q, tc, order[0], pass));
    }
  }

  lemma {:induction false} SameAll<T, S>(q: Platform<T>, p: Platform<S>, inner: T -> S, tc: TestCase,
      order: seq<Identity>, pass: Pass<T>)
    requires q.library == p.library && AllPass(p, inner, ExecuteAll(q, tc, order, pass).world.trace)
    ensures InnerPass(inner, ExecuteAll(q, tc, order, pass)) == ExecuteAll(p, tc, order, InnerPass(inner, pass))
    decreases |order|
  {
    hide ExecuteOne, AllPass, InnerPass;
    if order != [] {
      var next := ExecuteOne(q, tc, order[0], pass);
      AllGrows(q, tc, order[1..], next);
      PassPrefix(p, inner, next.world.trace, ExecuteAll(q, tc, order, pass).world.trace);
      SameOne(q, p, inner, tc, order[0], pass);
      SameAll(q, p, inner, tc, order[1..], next);
    }
  }

  lemma {:induction false} ProbeGrows<T>(q: Platform<T>, ids: seq<Identity>, w: World<T>)
    ensures w.trace <= Probe(q, ids, w).0.trace
    decreases |ids|
  {
    hide Send, ProbeResult;
    if ids != [] {
      if ids[0].preflight.None? {
        ProbeGrows(q, ids[1..], w);
      } else {
        SendGrows(q, w, PreflightCall(ids[0]));
        ProbeGrows(q, ids[1..], Send(q, w, PreflightCall(ids[0])).0);
      }
    }
  }

  lemma {:induction false} SameProbe<T, S>(q: Platform<T>, p: Platform<S>, inner: T -> S, ids: seq<Identity>,
      w: World<T>)
    requires q.library == p.library && AllPass(p, inner, Probe(q, ids, w).0.trace)
    ensures (InnerWorld(inner, Probe(q, ids, w).0), Probe(q, ids, w).1) == Probe(p, ids, InnerWorld(inner, w))
    decreases |ids|
  {
    hide Send, ProbeResult, AllPass, InnerTrace;
    if ids != [] {
      if ids[0].preflight.None? {
        SameProbe(q, p, inner, ids[1..], w);
      } else {
        var (v, ex) := Send(q, w, PreflightCall(ids[0]));
        ProbeGrows(q, ids[1..], v);
        PassPrefix(p, inner, v.trace, Probe(q, ids, w).0.trace);
        SameSend(q, p, inner, w, PreflightCall(ids[0]));
        SameProbe(q, p, inner, ids[1..], v);
      }
    }
  }

  lemma {:induction false} SetupGrows<T>(q: Platform<T>, tc: TestCase, i: nat, w: World<T>, vars: map<string, string>)
    requires i <= |tc.setup|
    ensures w.trace <= RunSetupFrom(q, tc, i, w, vars).0.trace
    decreases |tc.setup| - i
  {
    hide Send, StepVars, StepCall;
    if i < |tc.setup| && StepCall(q.library, tc, i, vars).Some? {
      var c := StepCall(q.library, tc, i, vars).value;
      SendGrows(q, w, c);
      var (v, ex) := Send(q, w, c);
      var next := StepVars(q.library, tc.setup[i], i, ex, vars);
      if next.Some? {
        SetupGrows(q, tc, i + 1, v, next.value);
      }
    }
  }

  lemma {:induction false} SameSetup<T, S>(q: Platform<T>, p: Platform<S>, inner: T -> S, tc: TestCase, i: nat,
      w: World<T>, vars: map<string, string>)
    requires i <= |tc.setup| && q.library == p.library && AllPass(p, inner, RunSetupFrom(q, tc, i, w, vars).0.trace)
    ensures (InnerWorld(inner, RunSetupFrom(q, tc, i, w, vars).0), RunSetupFrom(q, tc, i, w, vars).1)
         == RunSetupFrom(p, tc, i, InnerWorld(inner, w), vars)
    decreases |tc.setup| - i
  {
    hide Send, StepVars, StepCall, AllPass, InnerTrace;
    if i < |tc.setup| {
      if StepCall(q.library, tc, i, vars).Some? {
        var c := StepCall(q.library, tc, i, vars).value;
        var (v, ex) := Send(q, w, c);
        var next := StepVars(q.library, tc.setup[i], i, ex, vars);
        if next.Some? {
          SetupGrows(q, tc, i + 1, v, next.value);
          PassPrefix(p, inner, v.trace, RunSetupFrom(q, tc, i, w, vars).0.trace);
          SameSend(q, p, inner, w, c);
          SameSetup(q, p, inner, tc, i + 1, v, next.value);
        } else {
          SameSend(q, p, inner, w, c);
        }
      }
    }
  }

  lemma BoundGrows<T>(q: Platform<T>, tc: TestCase, w: World<T>)
    ensures w.trace <= Probe(q, PreflightIdentities(tc), w).0.trace <= RunBound(q, tc, w).0.trace
  {
    hide Probe, ExecuteAll, Conclude, GuardedDenials, ExecutionOrder;
    ProbeGrows(q, PreflightIdentities(tc), w);
    var (v, preflight) := Probe(q, PreflightIdentities(tc), w);
    AllGrows(q, tc, ExecutionOrder(tc), Pass(v, None, map[], map[]));
  }

  lemma SameBound<T, S>(q: Platform<T>, p: Platform<S>, inner: T -> S, tc: TestCase, w: World<T>)
    requires q.library == p.library && AllPass(p, inner, RunBound(q, tc, w).0.trace)
    ensures (InnerWorld(inner, RunBound(q, tc, w).0), RunBound(q, tc, w).1) == RunBound(p, tc, InnerWorld(inner, w))
  {
    hide Probe, ExecuteAll, Conclude, GuardedDenials, ExecutionOrder, AllPass, InnerTrace, UnreadyAssessments;
    BoundGrows(q, tc, w);
    var (v, preflight) := Probe(q, PreflightIdentities(tc), w);
    PassPrefix(p, inner, v.trace, RunBound(q, tc, w).0.trace);
    SameProbe(q, p, inner, PreflightIdentities(tc), w);
    if AllPassed(preflight) {
      SameAll(q, p, inner, tc, ExecutionOrder(tc), Pass(v, None, map[], map[]));
    }
  }

  /** Main result: the outcome and the inner server's trace are those of the run without the wrapper. */
  lemma SameRun<T, S>(q: Platform<T>, p: Platform<S>, inner: T -> S, tc: TestCase, w: World<T>)
    requires q.library == p.library && AllPass(p, inner, Run(q, tc, w).0.trace)
    ensures (InnerWorld(inner, Run(q, tc, w).0), Run(q, tc, w).1) == Run(p, tc, InnerWorld(inner, w))
  {
    hide RunSetupFrom, RunBound, ApplyVars, Valid, AllPass, InnerTrace;
    if Valid(q.library, tc) {
      var (v, vars) := RunSetupFrom(q, tc, 0, w, map[]);
      if vars.Some? && ApplyVars(q.library, tc, vars.value).Some? {
        var b := ApplyVars(q.library, tc, vars.value).value;
        BoundGrows(q, b, v);
        PassPrefix(p, inner, v.trace, Run(q, tc, w).0.trace);
        SameSetup(q, p, inner, tc, 0, w, map[]);
        SameBound(q, p, inner, b, v);
      } else {
        SameSetup(q, p, inner, tc, 0, w, map[]);
      }
    }
  }
}
