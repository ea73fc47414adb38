/** What a verified attempt reports, told from its requests and their answers alone: the reason for every
    verdict and the statuses recorded as evidence. */
module Reports {
  import opened Basics
  import opened Json
  import opened Model
  import opened Server
  import opened Verify
  import opened Attempts

  /** What a read shows; a cancelled one shows nothing. */
  function Shown<S>(wv: WriteVerification, e: Event<S>, after: bool): Reading {
    if e.cancelled then Reading(Observed(0, None), Cancelled) else Interpret(wv, e.execution, after)
  }

  /** Equal values, and equal statuses unless both are successful. */
  predicate Unchanged(a: Observed, b: Observed) {
    a.value == b.value && (a.status == b.status || (200 <= a.status <= 299 && 200 <= b.status <= 299))
  }

  predicate Targets(wv: WriteVerification, state: Observed) {
    wv.changedTo.Raw? && state.value == Decode(wv.changedTo)
  }

  /** Why nothing follows the first read. */
  function FirstStop(first: Reading): Reason {
    if first.reason.NoReason? || first.reason.VerifierStatus? then BaselineMissing else first.reason
  }

  /** Why nothing follows the second read. */
  function SecondStop(wv: WriteVerification, first: Reading, again: Reading): Reason {
    if !again.reason.NoReason? then again.reason
    else if !Unchanged(first.state, again.state) then ConcurrentChange
    else if Targets(wv, first.state) then TargetAlreadyPresent
    else ResetBaseline
  }

  /** Why a write is judged as it is. */
  function WriteReason(wv: WriteVerification, first: Observed, write: Execution, after: Reading): Reason {
    if !after.reason.NoReason? then after.reason
    else if Unchanged(first, after.state) then
      if write.error || write.errorKind then WriteFailed
      else if write.status == 202 then WritePending
      else if wv.environment.Unknown? then WriteEnvironment
      else StateUnchanged
    else if wv.changedTo.Raw? && !Targets(wv, after.state) then ChangedUnexpectedly
    else if wv.environment.Unknown? then WriteEnvironment
    else if wv.strategy.Deleted? && after.state.status != 404 then ChangedUnexpectedly
    else StateChanged
  }

  /** The reason and the evidence of an attempt that sent this block. */
  function Told<S>(wv: WriteVerification, block: seq<Event<S>>): (Reason, Evidence) {
    var r := ResetCount(wv);
    var reset := if r == 1 && block != [] then block[0].execution.status else 0;
    if block == [] then (Cancelled, Evidence([], 0, 0))
    else if |block| == r then
      if Acknowledged(block[0].execution) then (Cancelled, Evidence([0], 0, reset))
      else (ResetFailed, Evidence([], 0, reset))
    else
      var first := Shown(wv, block[r], false);
      if |block| == r + 1 then (FirstStop(first), Evidence([first.state.status], 0, reset))
      else
        var again := Shown(wv, block[r + 1], false);
        var before := [first.state.status, again.state.status];
        if |block| == r + 2 then (SecondStop(wv, first, again), Evidence(before, 0, reset))
        else
          var after := if |block| > r + 3 then Shown(wv, block[r + 3], true) else Reading(Observed(0, None), Cancelled);
          (WriteReason(wv, first.state, block[r + 2].execution, after), Evidence(before, after.state.status, reset))
  }

  // ----- The attempt tells it -----

  lemma JudgeReason(wv: WriteVerification, before: Observed, ex: Execution, after: Reading)
    requires SoundStrategy(wv)
    requires after.reason.NoReason? && wv.strategy.Created? ==> after.state.status == 404 || Success(after.state.status)
    ensures Judge(wv, before, ex, after).1 == WriteReason(wv, before, ex, after)
  {
  }

  lemma CreatedReads(wv: WriteVerification, ex: Execution)
    requires SoundStrategy(wv) && wv.strategy.Created? && Interpret(wv, ex, true).reason.NoReason?
    ensures Interpret(wv, ex, true).state.status == 404 || Success(Interpret(wv, ex, true).state.status)
  {
  }

  lemma ReadShows<S>(p: Platform<S>, wv: WriteVerification, w: World<S>, after: bool) returns (read: seq<Event<S>>)
    ensures var (w', r) := Observe(p, wv, w, after);
      && w'.trace == w.trace + read
      && |read| == (if w.cancelled then 0 else 1)
      && r == (if w.cancelled then Reading(Observed(0, None), Cancelled) else Shown(wv, read[0], after))
  {
    read := ObserveExtends(p, wv, w, after);
  }

  lemma WriteTells<S>(p: Platform<S>, wv: WriteVerification, id: Identity, req: Request, ea: ExpectedAccess,
      w: World<S>, session: Option<Observed>, before: Observed, evidence: Evidence) returns (tail: seq<Event<S>>)
    requires SoundStrategy(wv) && !w.cancelled
    ensures var a := WriteAndRead(p, wv, id, req, ea, w, session, before, evidence);
      && a.world.trace == w.trace + tail && 1 <= |tail| <= 2 && a.session == session
      && var after := if |tail| == 1 then Reading(Observed(0, None), Cancelled) else Shown(wv, tail[1], true);
         a.assessment == Verdicted(id, ea, a.assessment.decision, WriteReason(wv, before, tail[0].execution, after),
                                   evidence.(afterStatus := after.state.status))
  {
    hide Judge, Interpret, Send, Observe, WriteReason;
    var (w4, ex) := Send(p, w, Call(ResourcePhase, id, req));
    var e := SendExtends(p, w, Call(ResourcePhase, id, req));
    var rest := ReadShows(p, wv, w4, true);
    var (w5, after) := Observe(p, wv, w4, true);
    tail := [e] + rest;
    assert w.trace + tail == (w.trace + [e]) + rest;
    if after.reason.NoReason? && wv.strategy.Created? {
      CreatedReads(wv, rest[0].execution);
    }
    JudgeReason(wv, before, ex, after);
  }

  lemma SecondReasonTold(wv: WriteVerification, session: Option<Observed>, first: Reading, again: Reading)
    requires SoundStrategy(wv)
    ensures var reason := SecondReadReason(wv, first.state, again);
      && (!reason.NoReason? ==> reason == SecondStop(wv, first, again))
      && (reason.NoReason? && !SessionReason(wv, session, first.state).NoReason? ==>
        SecondStop(wv, first, again) == ResetBaseline)
  {
    hide Decode;
    assert HasTarget(wv) ==> Some(Target(wv)) == Decode(wv.changedTo);
  }

  /** The session's baseline is the first one agreed on, and is kept from then on. */
  function SessionTold<S>(wv: WriteVerification, session: Option<Observed>, block: seq<Event<S>>): Option<Observed> {
    if wv.reset.Some? && session.None? && |block| > 3 then Some(Shown(wv, block[1], false).state) else session
  }

  lemma SecondTells<S>(p: Platform<S>, wv: WriteVerification, id: Identity, req: Request, ea: ExpectedAccess,
      w: World<S>, session: Option<Observed>, first: Reading, reset: int) returns (events: seq<Event<S>>)
    requires SoundStrategy(wv) && !w.cancelled
    ensures var evidence := Evidence([first.state.status], 0, reset);
      var a := AfterFirstRead(p, wv, id, req, ea, w, session, first.state, evidence);
      && a.world.trace == w.trace + events && 1 <= |events| <= 3
      && var again := Shown(wv, events[0], false);
         var before := [first.state.status, again.state.status];
         if |events| == 1 then
           && a.assessment == Verdicted(id, ea, Inconclusive, SecondStop(wv, first, again), Evidence(before, 0, reset))
           && a.session == session
         else
           var after := if |events| == 2 then Reading(Observed(0, None), Cancelled) else Shown(wv, events[2], true);
           && a.assessment == Verdicted(id, ea, a.assessment.decision,
              WriteReason(wv, first.state, events[1].execution, after), Evidence(before, after.state.status, reset))
           && a.session == SessionAfter(wv, session, first.state)
  {
    hide Interpret, Observe, WriteAndRead, SessionReason, SecondReadReason, SecondStop, WriteReason, SessionAfter;
    var evidence := Evidence([first.state.status], 0, reset);
    var (w3, again) := Observe(p, wv, w, false);
    var read := ReadShows(p, wv, w, false);
    events := read;
    SecondReasonTold(wv, session, first, again);
    NotCancelledAgain(p, wv, w, first);
    assert evidence.beforeStatuses + [again.state.status] == [first.state.status, again.state.status];
    SessionReasons(wv, session, first.state);
    if SecondReadReason(wv, first.state, again).NoReason? && SessionReason(wv, session, first.state).NoReason? {
      var evidence' := evidence.(beforeStatuses := evidence.beforeStatuses + [again.state.status]);
      var tail := WriteTells(p, wv, id, req, ea, w3, SessionAfter(wv, session, first.state), first.state, evidence');
      events := read + tail;
      assert w.trace + events == (w.trace + read) + tail;
      assert events[1] == tail[0] && (|tail| == 2 ==> events[2] == tail[1]);
    }
  }

  lemma SessionReasons(wv: WriteVerification, session: Option<Observed>, before: Observed)
    ensures SessionReason(wv, session, before).NoReason? || SessionReason(wv, session, before).ResetBaseline?
  {
  }

  lemma NotCancelledAgain<S>(p: Platform<S>, wv: WriteVerification, w: World<S>, first: Reading)
    ensures var (w', r) := Observe(p, wv, w, false);
      SecondReadReason(wv, first.state, r).NoReason? ==> !w'.cancelled
  {
  }

  /** Main result: an attempt against any server reports exactly the reason and the evidence that its
      requests and their answers tell: the write was withheld because the run was cancelled, the reset failed,
      a read was of no use, the resource was not there or changed meanwhile or had the target already, or the
      baselines differ; or else the verdict rests on the states around the write. */
  lemma AttemptTells<S>(p: Platform<S>, tc: TestCase, wv: WriteVerification, id: Identity, req: Request,
      ea: ExpectedAccess, w: World<S>, session: Option<Observed>, block: seq<Event<S>>)
    requires SoundStrategy(wv)
    requires Extends(p, w, block, VerifiedExecute(p, tc, wv, id, req, ea, w, session).world)
    ensures var a := VerifiedExecute(p, tc, wv, id, req, ea, w, session);
      var (reason, evidence) := Told(wv, block);
      && a.assessment == Assessment(id.id, Some(ea.decision), a.assessment.decision, ByVerification, reason, [],
                                    Some(evidence))
      && a.session == SessionTold(wv, session, block)
  {
    hide Observe, Interpret, AfterFirstRead, FirstReadReason, SecondStop, WriteReason, SecondReadReason, SessionReason,
         Send, Acknowledged, FirstStop, Shown, ResetDone;
    var a := VerifiedExecute(p, tc, wv, id, req, ea, w, session);
    if w.cancelled {
      assert block == [] by { SameSuffix(w.trace, block, []); }
    } else {
      var (w1, status, done) := ResetSent(p, tc, wv, w);
      var reset := ResetEvents(p, tc, wv, w);
      if !done {
        assert block == reset by { SameSuffix(w.trace, block, reset); }
      } else {
        var (w2, first) := Observe(p, wv, w1, false);
        var read := ReadShows(p, wv, w1, false);
        assert w.trace + (reset + read) == (w.trace + reset) + read;
        FirstReasonTold(wv, first);
        if !FirstReadReason(wv, first).NoReason? {
          assert block == reset + read by { SameSuffix(w.trace, block, reset + read); }
          ToldBefore(wv, reset, read);
          hide Told;
        } else {
          NotCancelledFirst(p, wv, w1);
          var events := SecondTells(p, wv, id, req, ea, w2, session, first, status);
          assert w.trace + (reset + read + events) == ((w.trace + reset) + read) + events;
          assert block == reset + read + events by { SameSuffix(w.trace, block, reset + read + events); }
          ToldFrom(wv, reset, read, events);
          hide Told;
        }
      }
    }
  }

  // The block of an attempt that got no further than its first read.
  lemma ToldBefore<S>(wv: WriteVerification, reset: seq<Event<S>>, read: seq<Event<S>>)
    requires |reset| == ResetCount(wv) && |read| <= 1 && reset + read != []
    requires |reset| == 1 ==> Acknowledged(reset[0].execution)
    ensures var first := if read == [] then Reading(Observed(0, None), Cancelled) else Shown(wv, read[0], false);
      var status := if |reset| == 1 then reset[0].execution.status else 0;
      Told(wv, reset + read) == (FirstStop(first), Evidence([first.state.status], 0, status))
  {
    hide Shown;
    assert read == [] ==> reset + read == reset;
    assert read != [] ==> (reset + read)[|reset|] == read[0];
    assert |reset| == 1 ==> (reset + read)[0] == reset[0];
  }

  // The block of an attempt that got to its second read.
  lemma ToldFrom<S>(wv: WriteVerification, reset: seq<Event<S>>, read: seq<Event<S>>, events: seq<Event<S>>)
    requires |reset| == ResetCount(wv) && |read| == 1 && 1 <= |events| <= 3
    ensures var block := reset + read + events;
      var first, again := Shown(wv, read[0], false), Shown(wv, events[0], false);
      var status := if |reset| == 1 then reset[0].execution.status else 0;
      var before := [first.state.status, again.state.status];
      var after := if |events| <= 2 then Reading(Observed(0, None), Cancelled) else Shown(wv, events[2], true);
      && Told(wv, block) == (if |events| == 1 then (SecondStop(wv, first, again), Evidence(before, 0, status))
        else (WriteReason(wv, first.state, events[1].execution, after), Evidence(before, after.state.status, status)))
      && block[ResetCount(wv)] == read[0]
  {
    hide SecondStop, WriteReason, Shown;
    var block := reset + read + events;
    assert forall k :: 0 <= k < |events| ==> block[ResetCount(wv) + 1 + k] == events[k];
    assert block[ResetCount(wv)] == read[0] && (|reset| == 1 ==> block[0] == reset[0]);
  }

  lemma FirstReasonTold(wv: WriteVerification, first: Reading)
    ensures var reason := FirstReadReason(wv, first);
      !reason.NoReason? ==> reason == FirstStop(first)
  {
  }

  lemma NotCancelledFirst<S>(p: Platform<S>, wv: WriteVerification, w: World<S>)
    ensures var (w', r) := Observe(p, wv, w, false);
      FirstReadReason(wv, r).NoReason? ==> !w.cancelled && !w'.cancelled
  {
  }
}
