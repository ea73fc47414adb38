/** Write verification: each identity's request is wrapped in reads of the target's
    state by a separate reader, and access is judged from the difference. */
module Verify {
  import opened Basics
  import opened Json
  import opened Model
  import opened Server
  import opened Substitution
  import Pointer

  // ----- Observations -----

  /** What one verifier read established; value is None when no value was selected. */
  datatype Observed = Observed(status: int, value: Option<Value>)

  datatype Reading = Reading(state: Observed, reason: Reason)

  const NOTHING := Observed(0, None)

  /** Any two successful statuses count as the same. */
  predicate Same(a: Observed, b: Observed) {
    (a.status == b.status || (Success(a.status) && Success(b.status))) && a.value == b.value
  }

  function TokensOrNone(pointer: string): seq<string> {
    var tokens := Pointer.Tokens(pointer);
    if tokens.Some? then tokens.value else []
  }

  function VerifierMethod(lib: Library, wv: WriteVerification): string {
    var m := TrimSpace(wv.request.verb);
    if m != "" then lib.upper(m) else "GET"
  }

  function ReaderCall(lib: Library, wv: WriteVerification): Call {
    Call(VerificationPhase, wv.identity, wv.request.(verb := VerifierMethod(lib, wv)))
  }

  predicate HasTarget(wv: WriteVerification) {
    wv.changedTo.Raw?
  }

  function Target(wv: WriteVerification): Value {
    var v := Decode(wv.changedTo);
    if v.Some? then v.value else Null
  }

  /** How a completed read is understood. */
  function Interpret(wv: WriteVerification, ex: Execution, after: bool): Reading {
    var statusOnly := Observed(ex.status, None);
    var failed := ex.error || ex.errorKind;
    if after && !failed && ex.status in wv.afterStatus then Reading(statusOnly, NoReason)
    else if failed || ex.status >= 500 then Reading(statusOnly, VerifierReadFailed)
    else if ex.status == 401 || ex.status == 403 then Reading(statusOnly, VerifierDenied)
    else if ex.status != 404 && !Success(ex.status) then Reading(statusOnly, VerifierStatus)
    else if wv.strategy.Changed? && ex.status == 404 then Reading(statusOnly, VerifierStatus)
    else if wv.pointer == "" || !Success(ex.status) then Reading(statusOnly, NoReason)
    else
      var doc := Decode(ex.body);
      var v := if doc.None? then None else Pointer.PointerValueOf(doc.value, TokensOrNone(wv.pointer));
      if v.None? then Reading(statusOnly, VerifierValueMissing) else Reading(Observed(ex.status, v), NoReason)
  }

  ghost function Observe<S>(p: Platform<S>, wv: WriteVerification, w: World<S>, after: bool): (World<S>, Reading) {
    if w.cancelled then (w, Reading(NOTHING, Cancelled))
    else
      var (w', ex) := Send(p, w, ReaderCall(p.library, wv));
      (w', if w'.cancelled then Reading(NOTHING, Cancelled) else Interpret(wv, ex, after))
  }

  // ----- One verified attempt -----

  function ResetActor(tc: TestCase, reset: SetupStep): Identity {
    LastIdentity(tc.identities, reset.actor,
      Identity("verification-reset", "", "", Credential(StaticHeader, "", ""), None))
  }

  /** The last identity with this id, as a loop that overwrites would find. */
  function LastIdentity(ids: seq<Identity>, id: string, default: Identity): Identity {
    if ids == [] then default
    else LastIdentity(ids[1..], id, if ids[0].id == id then ids[0] else default)
  }

  predicate ResetDone(ex: Execution) {
    !ex.error && !ex.errorKind && Success(ex.status) && ex.status != 202
  }

  predicate UsableBaseline(wv: WriteVerification, before: Observed) {
    if wv.strategy.Created? then before.status == 404 else Success(before.status)
  }

  function FirstReadReason(wv: WriteVerification, r: Reading): Reason {
    var reason := if r.reason.VerifierStatus? then BaselineMissing else r.reason;
    if reason.NoReason? && !UsableBaseline(wv, r.state) then BaselineMissing else reason
  }

  function SecondReadReason(wv: WriteVerification, before: Observed, again: Reading): Reason {
    if !again.reason.NoReason? then again.reason
    else if !Same(again.state, before) then ConcurrentChange
    else if HasTarget(wv) && before.value == Some(Target(wv)) then TargetAlreadyPresent
    else NoReason
  }

  function SessionReason(wv: WriteVerification, session: Option<Observed>, before: Observed): Reason {
    if wv.reset.Some? && session.Some? && !Same(session.value, before) then ResetBaseline else NoReason
  }

  function SessionAfter(wv: WriteVerification, session: Option<Observed>, before: Observed): Option<Observed> {
    if wv.reset.Some? && session.None? then Some(before) else session
  }

  /** The judgement of a sent request from the states around it. */
  function Judge(wv: WriteVerification, before: Observed, ex: Execution, after: Reading): (Verdict, Reason) {
    var same := Same(after.state, before);
    if !after.reason.NoReason? then (Inconclusive, after.reason)
    else if same && (ex.error || ex.errorKind) then (Inconclusive, WriteFailed)
    else if same && ex.status == 202 then (Inconclusive, WritePending)
    else if !same && HasTarget(wv) && after.state.value != Some(Target(wv)) then (Inconclusive, ChangedUnexpectedly)
    else if wv.environment.Unknown? then (Inconclusive, WriteEnvironment)
    else if wv.strategy.Created? && after.state.status != 404
      && !Success(after.state.status) then (Inconclusive, VerifierStatus)
    else if wv.strategy.Deleted? && after.state.status != 404 && !same then (Inconclusive, ChangedUnexpectedly)
    else if same then (Denied, StateUnchanged)
    else (Allowed, StateChanged)
  }

  datatype Attempt<+S> = Attempt(world: World<S>, session: Option<Observed>, execution: Execution,
      assessment: Assessment)

  function Verdicted(id: Identity, ea: ExpectedAccess, verdict: Verdict, reason: Reason,
      evidence: Evidence): Assessment {
    Assessment(id.id, Some(ea.decision), verdict, ByVerification, reason, [], Some(evidence))
  }

  ghost function Withhold<S>(w: World<S>, session: Option<Observed>, id: Identity, ea: ExpectedAccess, reason: Reason,
      evidence: Evidence): Attempt<S> {
    Attempt(w, session, WITHHELD, Verdicted(id, ea, Inconclusive, reason, evidence))
  }

  ghost function ResetSent<S>(p: Platform<S>, tc: TestCase, wv: WriteVerification, w: World<S>): (World<S>, int, bool) {
    if wv.reset.None? then (w, 0, true)
    else
      var (w', ex) := Send(p, w, Call(ResetPhase, ResetActor(tc, wv.reset.value), wv.reset.value.request));
      (w', ex.status, ResetDone(ex))
  }

  ghost function VerifiedExecute<S>(p: Platform<S>, tc: TestCase, wv: WriteVerification, id: Identity, req: Request,
      ea: ExpectedAccess, w: World<S>, session: Option<Observed>): Attempt<S>
  {
    if w.cancelled then Withhold(w, session, id, ea, Cancelled, Evidence([], 0, 0))
    else
      var (w1, status, done) := ResetSent(p, tc, wv, w);
      if !done then Withhold(w1, session, id, ea, ResetFailed, Evidence([], 0, status))
      else
        var (w2, first) := Observe(p, wv, w1, false);
        var evidence := Evidence([first.state.status], 0, status);
        if !FirstReadReason(wv, first).NoReason? then Withhold(w2, session, id, ea, FirstReadReason(wv, first),
          evidence)
        else AfterFirstRead(p, wv, id, req, ea, w2, session, first.state, evidence)
  }

  ghost function AfterFirstRead<S>(p: Platform<S>, wv: WriteVerification, id: Identity, req: Request,
      ea: ExpectedAccess, w: World<S>, session: Option<Observed>, before: Observed, evidence: Evidence): Attempt<S>
  {
    var (w3, again) := Observe(p, wv, w, false);
    var evidence' := evidence.(beforeStatuses := evidence.beforeStatuses + [again.state.status]);
    var reason := SecondReadReason(wv, before, again);
    if !reason.NoReason? then Withhold(w3, session, id, ea, reason, evidence')
    else if !SessionReason(wv, session, before).NoReason? then
      Withhold(w3, session, id, ea, ResetBaseline, evidence')
    else
      var session' := SessionAfter(wv, session, before);
      if w3.cancelled then Withhold(w3, session', id, ea, Cancelled, evidence')
      else WriteAndRead(p, wv, id, req, ea, w3, session', before, evidence')
  }

  ghost function WriteAndRead<S>(p: Platform<S>, wv: WriteVerification, id: Identity, req: Request,
      ea: ExpectedAccess, w: World<S>, session: Option<Observed>, before: Observed, evidence: Evidence): Attempt<S>
  {
    var (w4, ex) := Send(p, w, Call(ResourcePhase, id, req));
    var (w5, after) := Observe(p, wv, w4, true);
    var (verdict, reason) := Judge(wv, before, ex, after);
    Attempt(w5, session, ex, Verdicted(id, ea, verdict, reason, evidence.(afterStatus := after.state.status)))
  }

  // ----- The engine's own steps -----

  /** Each reviewed reset must restore the same state; the reference lives for one run. */
  class Session {
    var baseline: Option<Observed>

    constructor ()
      ensures baseline == None
    {
      baseline := None;
    }
  }

  method ObserveState<S>(exec: Executor<S>, wv: WriteVerification, after: bool) returns (r: Reading)
    modifies exec
    ensures (exec.Snapshot(), r) == Observe(exec.platform, wv, old(exec.Snapshot()), after)
  {
    if exec.cancelled {
      return Reading(NOTHING, Cancelled);
    }
    var ex := exec.Execute(ReaderCall(exec.platform.library, wv));
    if exec.cancelled {
      return Reading(NOTHING, Cancelled);
    }
    var statusOnly := Observed(ex.status, None);
    if after && !ex.error && !ex.errorKind {
      for i := 0 to |wv.afterStatus|
        invariant ex.status !in wv.afterStatus[..i]
      {
        if ex.status == wv.afterStatus[i] {
          return Reading(statusOnly, NoReason);
        }
      }
      assert wv.afterStatus[..|wv.afterStatus|] == wv.afterStatus;
    }
    if ex.error || ex.errorKind || ex.status >= 500 {
      return Reading(statusOnly, VerifierReadFailed);
    } else if ex.status == 401 || ex.status == 403 {
      return Reading(statusOnly, VerifierDenied);
    } else if ex.status != 404 && (ex.status < 200 || ex.status >= 300) {
      return Reading(statusOnly, VerifierStatus);
    }
    if wv.strategy.Changed? && ex.status == 404 {
      return Reading(statusOnly, VerifierStatus);
    }
    if wv.pointer == "" || ex.status < 200 || ex.status >= 300 {
      return Reading(statusOnly, NoReason);
    }
    var doc := Decode(ex.body);
    if doc.None? {
      return Reading(statusOnly, VerifierValueMissing);
    }
    var v := Pointer.PointerValue(doc.value, TokensOrNone(wv.pointer));
    if v.None? {
      return Reading(statusOnly, VerifierValueMissing);
    }
    return Reading(Observed(ex.status, v), NoReason);
  }

  method ExecuteVerified<S>(exec: Executor<S>, session: Session, tc: TestCase, wv: WriteVerification, id: Identity,
      req: Request, ea: ExpectedAccess) returns (ex: Execution, a: Assessment)
    requires tc.verification == Some(wv)
    modifies exec, session
    ensures Attempt(exec.Snapshot(), session.baseline, ex, a)
         == VerifiedExecute(exec.platform, tc, wv, id, req, ea, old(exec.Snapshot()), old(session.baseline))
  {
    hide Observe, Judge, Send;
    var evidence := Evidence([], 0, 0);
    a := Assessment(id.id, Some(ea.decision), Inconclusive, ByVerification, NoReason, [], Some(evidence));
    if exec.cancelled {
      a := a.(reason := Cancelled);
      return WITHHELD, a;
    }
    if wv.reset.Some? {
      var actor := Identity("verification-reset", "", "", Credential(StaticHeader, "", ""), None);
      for i := 0 to |tc.identities|
        invariant LastIdentity(tc.identities[i..], wv.reset.value.actor, actor) == ResetActor(tc, wv.reset.value)
      {
        assert tc.identities[i..][1..] == tc.identities[i + 1..];
        if tc.identities[i].id == wv.reset.value.actor {
          actor := tc.identities[i];
        }
      }
      var reset := exec.Execute(Call(ResetPhase, actor, wv.reset.value.request));
      evidence := evidence.(resetStatus := reset.status);
      if reset.error || reset.errorKind || reset.status < 200 || reset.status >= 300 || reset.status == 202 {
        a := a.(reason := ResetFailed, evidence := Some(evidence));
        return WITHHELD, a;
      }
    }
    var first := ObserveState(exec, wv, false);
    var before, reason := first.state, first.reason;
    evidence := evidence.(beforeStatuses := evidence.beforeStatuses + [before.status]);
    assert evidence.beforeStatuses == [before.status];
    if reason.VerifierStatus? {
      reason := BaselineMissing;
    }
    if reason.NoReason? && ((wv.strategy.Created? && before.status != 404) || (!wv.strategy.Created?
      && (before.status < 200 || before.status >= 300))) {
      reason := BaselineMissing;
    }
    if reason.NoReason? {
      var again := ObserveState(exec, wv, false);
      reason := again.reason;
      evidence := evidence.(beforeStatuses := evidence.beforeStatuses + [again.state.status]);
      if reason.NoReason? && !Same(again.state, before) {
        reason := ConcurrentChange;
      }
    }
    var target := Null;
    var hasTarget := wv.changedTo.Raw?;
    if reason.NoReason? && hasTarget {
      target := Target(wv);
      if before.value == Some(target) {
        reason := TargetAlreadyPresent;
      }
    }
    if reason.NoReason? && wv.reset.Some? {
      if session.baseline.Some? && !Same(session.baseline.value, before) {
        reason := ResetBaseline;
      } else if session.baseline.None? {
        session.baseline := Some(before);
      }
    }
    if reason.NoReason? && exec.cancelled {
      reason := Cancelled;
    }
    if !reason.NoReason? {
      a := a.(reason := reason, evidence := Some(evidence));
      return WITHHELD, a;
    }
    ex := exec.Execute(Call(ResourcePhase, id, req));
    var after := ObserveState(exec, wv, true);
    evidence := evidence.(afterStatus := after.state.status);
    a := JudgeInto(a.(evidence := Some(evidence)), wv, before, ex, after, hasTarget, target);
  }

  /** The closing switch of an attempt, writing the verdict into the assessment. */
  method JudgeInto(start: Assessment, wv: WriteVerification, before: Observed, ex: Execution, after: Reading,
      hasTarget: bool, target: Value) returns (a: Assessment)
    requires start.decision.Inconclusive? && hasTarget == HasTarget(wv) && (hasTarget ==> target == Target(wv))
    ensures a == start.(decision := Judge(wv, before, ex, after).0, reason := Judge(wv, before, ex, after).1)
  {
    a := start;
    var st, same := after.state, Same(after.state, before);
    if !after.reason.NoReason? {
      a := a.(reason := after.reason);
    } else if same && (ex.error || ex.errorKind) {
      a := a.(reason := WriteFailed);
    } else if same && ex.status == 202 {
      a := a.(reason := WritePending);
    } else if !same && hasTarget && st.value != Some(target) {
      a := a.(reason := ChangedUnexpectedly);
    } else if wv.environment.Unknown? {
      a := a.(reason := WriteEnvironment);
    } else if wv.strategy.Created? && st.status != 404 && (st.status < 200 || st.status >= 300) {
      a := a.(reason := VerifierStatus);
    } else if wv.strategy.Deleted? && st.status != 404 && !same {
      a := a.(reason := ChangedUnexpectedly);
    } else if same {
      a := a.(decision := Denied, reason := StateUnchanged);
    } else {
      a := a.(decision := Allowed, reason := StateChanged);
    }
  }
}
