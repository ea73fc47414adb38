/** Whole runs against an arbitrary server: what is sent, in which order, and what the
    recorded requests say about every final assessment. */
module Runs {
  import opened Basics
  import opened Model
  import opened Server
  import opened Verify
  import opened Judgement
  import opened Engine
  import opened Attempts

  ghost function Flatten<T>(blocks: seq<seq<T>>): seq<T> {
    if blocks == [] then [] else blocks[0] + Flatten(blocks[1..])
  }

  /** What a case needs for the results below; validation and variable binding provide it. */
  ghost predicate Sound(tc: TestCase) {
    && DistinctIdentities(tc.identities)
    && (tc.verification.Some? ==> SoundStrategy(tc.verification.value))
  }

  // ----- One identity -----

  /** The requests sent for one identity. */
  ghost predicate BlockOk<S>(p: Platform<S>, tc: TestCase, id: Identity, block: seq<Event<S>>) {
    if IsVerified(tc, id.id) then
      var wv := tc.verification.value;
      && |block| <= ResetCount(wv) + 4
      && Calls(p.library, tc, wv, id, TestRequest(tc), 0, block)
      && Guarded(wv, block)
    else |block| == 1 && block[0].call == Call(ResourcePhase, id, TestRequest(tc))
  }

  /** A 401 that cannot be attributed to authorization withdraws a denial. */
  function DemotedVerdict(tc: TestCase, id: Identity, ea: ExpectedAccess, ex: Execution, v: Verdict): Verdict {
    if ea.decision.Deny? && v.Denied? && RejectsCredential(tc, id, ex) then Inconclusive else v
  }

  /** The records a pass keeps about an identity are those its block justifies. */
  ghost predicate Recorded<S>(p: Platform<S>, tc: TestCase, id: Identity, block: seq<Event<S>>, pass: Pass<S>)
    requires BlockOk(p, tc, id, block)
  {
    && id.id in pass.executions
    && if IsVerified(tc, id.id) then
         var wv, ea := tc.verification.value, ExpectedFor(tc.expected, id.id).value;
         && pass.executions[id.id] == Reclassified(p.library, tc, id.id, BlockExecution(wv, block))
         && id.id in pass.verified
         && var a := pass.verified[id.id];
            && a.identityId == id.id && a.expected == Some(ea.decision) && a.source.ByVerification?
            && a.decision == DemotedVerdict(tc, id, ea, BlockExecution(wv, block), BlockVerdict(wv, block))
       else pass.executions[id.id] == Reclassified(p.library, tc, id.id, block[0].execution)
  }

  /** With a reset declared, a sent write started from the state the session remembers. */
  ghost predicate SharesBaseline<S>(tc: TestCase, id: Identity, block: seq<Event<S>>, session: Option<Observed>) {
    IsVerified(tc, id.id) && tc.verification.value.reset.Some? && Sent(tc.verification.value, block) ==>
      session.Some? && Same(session.value, FirstReading(tc.verification.value, block).state)
  }

  lemma OneBlock<S>(p: Platform<S>, tc: TestCase, id: Identity, pass: Pass<S>) returns (block: seq<Event<S>>)
    requires Sound(tc)
    ensures var r := ExecuteOne(p, tc, id, pass);
      && Extends(p, pass.world, block, r.world)
      && BlockOk(p, tc, id, block)
      && Recorded(p, tc, id, block, r)
      && SharesBaseline(tc, id, block, r.session)
      && (pass.session.Some? ==> r.session == pass.session)
      && r.executions == pass.executions[id.id := ExecutionOf(r.executions, id.id)]
      && (if IsVerified(tc, id.id) then id.id in r.verified && r.verified == pass.verified[id.id := r.verified[id.id]]
        else r.verified == pass.verified)
  {
    hide VerifiedExecute, Extends, Calls, Guarded, BlockVerdict, Send;
    if IsVerified(tc, id.id) {
      var wv, ea := tc.verification.value, ExpectedFor(tc.expected, id.id).value;
      block := AttemptDiscipline(p, tc, wv, id, TestRequest(tc), ea, pass.world, pass.session);
      var a := VerifiedExecute(p, tc, wv, id, TestRequest(tc), ea, pass.world, pass.session);
      AttemptFields(p, tc, wv, id, TestRequest(tc), ea, pass.world, pass.session);
    } else {
      var e := SendExtends(p, pass.world, Call(ResourcePhase, id, TestRequest(tc)));
      block := [e];
    }
  }

  lemma AttemptFields<S>(p: Platform<S>, tc: TestCase, wv: WriteVerification, id: Identity, req: Request,
      ea: ExpectedAccess, w: World<S>, session: Option<Observed>)
    ensures var a := VerifiedExecute(p, tc, wv, id, req, ea, w, session).assessment;
      a.identityId == id.id && a.expected == Some(ea.decision) && a.source.ByVerification?
  {
    hide Observe, Judge, Send;
  }

  // ----- The first pass -----

  ghost predicate BlocksOk<S>(p: Platform<S>, tc: TestCase, order: seq<Identity>, blocks: seq<seq<Event<S>>>) {
    |blocks| == |order| && forall i :: 0 <= i < |order| ==> BlockOk(p, tc, order[i], blocks[i])
  }

  ghost predicate Mentions(ids: seq<Identity>, id: string) {
    exists i :: 0 <= i < |ids| && ids[i].id == id
  }

  lemma {:induction false} PassBlocks<S>(p: Platform<S>, tc: TestCase, order: seq<Identity>,
      pass: Pass<S>) returns (blocks: seq<seq<Event<S>>>)
    requires Sound(tc) && DistinctIdentities(order)
    ensures BlocksOk(p, tc, order, blocks)
    ensures var r := ExecuteAll(p, tc, order, pass);
      && Extends(p, pass.world, Flatten(blocks), r.world)
      && (forall i :: 0 <= i < |order| ==>
        Recorded(p, tc, order[i], blocks[i], r) && SharesBaseline(tc, order[i], blocks[i], r.session))
      && (pass.session.Some? ==> r.session == pass.session)
      && (forall x :: x in pass.executions ==> x in r.executions)
      && (forall x :: x in r.verified <==> x in pass.verified || (Mentions(order, x) && IsVerified(tc, x)))
      && (forall x :: x in pass.executions && !Mentions(order, x) ==> r.executions[x] == pass.executions[x])
      && (forall x :: x in pass.verified && !Mentions(order, x) ==> r.verified[x] == pass.verified[x])
    decreases |order|
  {
    hide ExecuteOne, BlockOk, Recorded, Extends, SharesBaseline, IsVerified, Sound, Mentions;
    if order == [] {
      blocks := [];
      ExtendsNothing(p, pass.world);
      NoMentions();
    } else {
      var id, rest := order[0], order[1..];
      var next := ExecuteOne(p, tc, id, pass);
      var block := OneBlock(p, tc, id, pass);
      var others := PassBlocks(p, tc, rest, next);
      var r := ExecuteAll(p, tc, rest, next);
      blocks := [block] + others;
      assert blocks[1..] == others;
      ExtendsTransitive(p, pass.world, block, next.world, Flatten(others), r.world);
      MentionsStep(order);
      assert id.id in next.executions;
      KeepsRecord(p, tc, id, block, next, r);
      KeepsBaseline(tc, id, block, next.session, r.session);
      PassStep(p, tc, order, block, others, r);
    }
  }

  lemma NoMentions()
    ensures forall x :: !Mentions([], x)
  {
  }

  // The facts about the first block and about the others are the facts about all.
  lemma PassStep<S>(p: Platform<S>, tc: TestCase, order: seq<Identity>, block: seq<Event<S>>,
      others: seq<seq<Event<S>>>, r: Pass<S>)
    requires order != [] && BlockOk(p, tc, order[0], block) && BlocksOk(p, tc, order[1..], others)
    requires Recorded(p, tc, order[0], block, r) && SharesBaseline(tc, order[0], block, r.session)
    requires forall i :: 0 <= i < |others| ==>
      Recorded(p, tc, order[1..][i], others[i], r) && SharesBaseline(tc, order[1..][i], others[i], r.session)
    ensures BlocksOk(p, tc, order, [block] + others)
    ensures forall i :: 0 <= i < |order| ==>
      Recorded(p, tc, order[i], ([block] + others)[i], r)
        && SharesBaseline(tc, order[i], ([block] + others)[i], r.session)
  {
    hide BlockOk, Recorded, SharesBaseline;
    var blocks := [block] + others;
    forall i | 0 <= i < |order|
      ensures BlockOk(p, tc, order[i], blocks[i])
      ensures Recorded(p, tc, order[i], blocks[i], r) && SharesBaseline(tc, order[i], blocks[i], r.session)
    {
      if i > 0 {
        assert order[i] == order[1..][i - 1] && blocks[i] == others[i - 1];
      }
    }
  }

  lemma MentionsStep(order: seq<Identity>)
    requires order != []
    ensures forall x :: Mentions(order, x) <==> x == order[0].id || Mentions(order[1..], x)
    ensures DistinctIdentities(order) ==> DistinctIdentities(order[1..]) && !Mentions(order[1..], order[0].id)
  {
    assert forall i :: 0 <= i < |order[1..]| ==> order[1..][i] == order[i + 1];
    forall x
      ensures Mentions(order, x) <==> x == order[0].id || Mentions(order[1..], x)
    {
      if Mentions(order, x) && x != order[0].id {
        var i :| 0 <= i < |order| && order[i].id == x;
        assert order[1..][i - 1].id == x;
      }
      if Mentions(order[1..], x) {
        var i :| 0 <= i < |order[1..]| && order[1..][i].id == x;
        assert order[i + 1].id == x;
      }
    }
  }

  lemma KeepsRecord<S>(p: Platform<S>, tc: TestCase, id: Identity, block: seq<Event<S>>, pass: Pass<S>, r: Pass<S>)
    requires BlockOk(p, tc, id, block) && Recorded(p, tc, id, block, pass)
    requires id.id in r.executions && r.executions[id.id] == pass.executions[id.id]
    requires id.id in pass.verified ==> id.id in r.verified && r.verified[id.id] == pass.verified[id.id]
    ensures Recorded(p, tc, id, block, r)
  {
  }

  lemma KeepsBaseline<S>(tc: TestCase, id: Identity, block: seq<Event<S>>, s: Option<Observed>, t: Option<Observed>)
    requires SharesBaseline(tc, id, block, s) && (s.Some? ==> t == s)
    ensures SharesBaseline(tc, id, block, t)
  {
  }
}
