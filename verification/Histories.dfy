/** What can be read from the queue after a run of operations, told by the operations alone. */
module Histories {
  import opened Sorting
  import opened Queue

  // ----- The operations on one job, newest first -----

  ghost function LastResult(ops: seq<Op>, id: string, before: string): string {
    if ops == [] then before
    else
      var op := ops[|ops| - 1];
      if op.SetResult? && op.id == id then op.result else LastResult(ops[..|ops| - 1], id, before)
  }

  predicate Finishes(op: Op, id: string) {
    op.Complete? && op.id == id && (op.status == "done" || op.status == "failed")
  }

  ghost function LastMessage(ops: seq<Op>, id: string, before: string): string {
    if ops == [] then before
    else
      var op := ops[|ops| - 1];
      if Finishes(op, id) then op.message else LastMessage(ops[..|ops| - 1], id, before)
  }

  /** A pending job is claimed, a claimed one runs once an event says so, and any job may be finished. */
  function StatusBy(op: Op, id: string, status: string): string {
    if Finishes(op, id) then op.status
    else if op.Claim? && op.id == id && status == "pending" then "claimed"
    else if op.AppendEvent? && op.id == id && op.event.kind == "running" && status == "claimed" then "running"
    else status
  }

  ghost function StatusAfter(ops: seq<Op>, id: string, before: string): string {
    if ops == [] then before
    else StatusBy(ops[|ops| - 1], id, StatusAfter(ops[..|ops| - 1], id, before))
  }

  /** The runner of the claim that found the job pending. */
  ghost function RunnerAfter(ops: seq<Op>, id: string, status: string, before: string): string {
    if ops == [] then before
    else
      var op, past := ops[|ops| - 1], ops[..|ops| - 1];
      if op.Claim? && op.id == id && StatusAfter(past, id, status) == "pending" then op.runner
      else RunnerAfter(past, id, status, before)
  }

  ghost function EventsGiven(ops: seq<Op>, id: string): seq<Event> {
    if ops == [] then []
    else
      var op := ops[|ops| - 1];
      EventsGiven(ops[..|ops| - 1], id) + if op.AppendEvent? && op.id == id then [op.event] else []
  }

  /** A given instant is kept; an unset one becomes a reading of the clock between the two ticks. */
  ghost predicate Stamped(sup: Supply, from: nat, to: nat, given: Time, at: Time) {
    if given != 0 then at == given else exists t :: from <= t < to && at == sup.clock(t)
  }

  ghost predicate StampedEvent(sup: Supply, from: nat, to: nat, given: Event, e: Event) {
    e.kind == given.kind && e.text == given.text && Stamped(sup, from, to, given.at, e.at)
  }

  /** The events of b are those of a and the given ones behind them. */
  ghost predicate EventsAfter(sup: Supply, from: nat, to: nat, given: seq<Event>, a: seq<Event>, b: seq<Event>) {
    && |b| == |a| + |given| && a <= b
    && forall k :: 0 <= k < |given| ==> StampedEvent(sup, from, to, given[k], b[|a| + k])
  }

  ghost predicate FieldsAfter(ops: seq<Op>, a: Job, b: Job) {
    && b.id == a.id && b.tenant == a.tenant && b.toolType == a.toolType && b.target == a.target
    && b.program == a.program && b.config == a.config && b.createdAt == a.createdAt
    && b.status == StatusAfter(ops, a.id, a.status)
    && b.claimedBy == RunnerAfter(ops, a.id, a.status, a.claimedBy)
    && b.result == LastResult(ops, a.id, a.result)
    && b.errorMessage == LastMessage(ops, a.id, a.errorMessage)
  }

  /** b is a after these operations. */
  ghost predicate JobAfter(sup: Supply, from: nat, to: nat, ops: seq<Op>, a: Job, b: Job) {
    FieldsAfter(ops, a, b) && EventsAfter(sup, from, to, EventsGiven(ops, a.id), a.events, b.events)
  }

  // What one operation does to the other fields of a job.
  lemma FieldsOnce(sup: Supply, q: State, op: Op, id: string)
    requires id in q.jobs
    ensures var q' := Apply(sup, q, op).0;
      id in q'.jobs && FieldsBy(op, id, q.jobs[id], q'.jobs[id])
  {
    hide FieldsBy, SortedKeys, InOrder, PendingJobs, TailEntries;
    var a, b := q.jobs[id], Apply(sup, q, op).0.jobs[id];
    match op {
      case AppendEvent(_, event) => FieldsAppended(op, id, a, b);
      case Claim(_, _) => FieldsClaimed(op, id, a, b);
      case _ => FieldsSet(op, id, a, b);
    }
  }

  lemma FieldsAppended(op: Op, id: string, a: Job, b: Job)
    requires op.AppendEvent?
    requires b == if op.id != id then a
      else a.(events := b.events, updatedAt := b.updatedAt,
              status := if op.event.kind == "running" && a.status == CLAIMED then RUNNING else a.status)
    ensures FieldsBy(op, id, a, b)
  {
  }

  lemma FieldsClaimed(op: Op, id: string, a: Job, b: Job)
    requires op.Claim?
    requires b == if op.id != id || a.status != PENDING then a
      else a.(status := CLAIMED, claimedBy := op.runner, updatedAt := b.updatedAt)
    ensures FieldsBy(op, id, a, b)
  {
  }

  lemma FieldsSet(op: Op, id: string, a: Job, b: Job)
    requires !op.AppendEvent? && !op.Claim?
    requires b == if op.SetResult? && op.id == id then a.(result := op.result, updatedAt := b.updatedAt)
      else if Finishes(op, id) then a.(status := op.status, errorMessage := op.message, updatedAt := b.updatedAt)
      else a
    ensures FieldsBy(op, id, a, b)
  {
  }

  ghost predicate FieldsBy(op: Op, id: string, a: Job, b: Job) {
    && b.id == a.id && b.tenant == a.tenant && b.toolType == a.toolType && b.target == a.target
    && b.program == a.program && b.config == a.config && b.createdAt == a.createdAt
    && b.status == StatusBy(op, id, a.status)
    && b.claimedBy == (if op.Claim? && op.id == id && a.status == "pending" then op.runner else a.claimedBy)
    && b.result == (if op.SetResult? && op.id == id then op.result else a.result)
    && b.errorMessage == (if Finishes(op, id) then op.message else a.errorMessage)
  }

  lemma FieldsAfterOne(past: seq<Op>, op: Op, a: Job, b: Job, c: Job)
    requires FieldsAfter(past, a, b) && FieldsBy(op, a.id, b, c)
    ensures FieldsAfter(past + [op], a, c)
  {
    var ops := past + [op];
    assert ops[..|ops| - 1] == past && ops[|ops| - 1] == op;
  }

  lemma EventsAfterOne(sup: Supply, from: nat, to: nat, to': nat, was: seq<Event>, a: seq<Event>, b: seq<Event>,
                       given: Event, e: Event)
    requires EventsAfter(sup, from, to, was, a, b) && to <= to' && StampedEvent(sup, from, to', given, e)
    ensures EventsAfter(sup, from, to', was + [given], a, b + [e])
  {
    EventsKeep(sup, from, to, to', was, a, b);
    forall k | 0 <= k < |was + [given]|
      ensures StampedEvent(sup, from, to', (was + [given])[k], (b + [e])[|a| + k])
    {
      if k < |was| {
        assert (b + [e])[|a| + k] == b[|a| + k];
      }
    }
  }

  lemma EventsKeep(sup: Supply, from: nat, to: nat, to': nat, was: seq<Event>, a: seq<Event>, b: seq<Event>)
    requires EventsAfter(sup, from, to, was, a, b) && to <= to'
    ensures EventsAfter(sup, from, to', was, a, b)
  {
  }

  // What one operation does to the events of a job.
  lemma EventsOnce(sup: Supply, q: State, op: Op, id: string)
    requires id in q.jobs
    ensures var q' := Apply(sup, q, op).0;
      && q.tick <= q'.tick && id in q'.jobs
      && (op.AppendEvent? && op.id == id ==>
        exists e :: q'.jobs[id].events == q.jobs[id].events + [e] && StampedEvent(sup, q.tick, q'.tick, op.event, e))
      && (!(op.AppendEvent? && op.id == id) ==> q'.jobs[id].events == q.jobs[id].events)
  {
    hide SortedKeys, InOrder, PendingJobs, TailEntries;
    if op.AppendEvent? && op.id == id {
      var e := op.event.(at := if op.event.at == 0 then sup.clock(q.tick) else op.event.at);
      assert Apply(sup, q, op).0.jobs[id].events == q.jobs[id].events + [e];
    }
  }

  // One more operation.
  lemma JobAfterOne(sup: Supply, from: nat, q: State, past: seq<Op>, op: Op, a: Job)
    requires Kept(q) && from <= q.tick && a.id in q.jobs && JobAfter(sup, from, q.tick, past, a, q.jobs[a.id])
    ensures var q' := Apply(sup, q, op).0;
      q.tick <= q'.tick && a.id in q'.jobs && JobAfter(sup, from, q'.tick, past + [op], a, q'.jobs[a.id])
  {
    hide Apply, EventsAfter, FieldsAfter, FieldsBy, Kept;
    var ops, q' := past + [op], Apply(sup, q, op).0;
    assert ops[..|ops| - 1] == past && ops[|ops| - 1] == op;
    FieldsOnce(sup, q, op, a.id);
    FieldsAfterOne(past, op, a, q.jobs[a.id], q'.jobs[a.id]);
    EventsOnce(sup, q, op, a.id);
    var was, b, c := EventsGiven(past, a.id), q.jobs[a.id].events, q'.jobs[a.id].events;
    if op.AppendEvent? && op.id == a.id {
      var e :| c == b + [e] && StampedEvent(sup, q.tick, q'.tick, op.event, e);
      EventsAfterOne(sup, from, q.tick, q'.tick, was, a.events, b, op.event, e);
    } else {
      assert was + [] == was;
      EventsKeep(sup, from, q.tick, q'.tick, was, a.events, b);
    }
  }

  lemma JobAfterNothing(sup: Supply, q: State, id: string)
    requires Kept(q) && id in q.jobs
    ensures JobAfter(sup, q.tick, q.tick, [], q.jobs[id], q.jobs[id])
  {
  }

  /** Main result: in any run a job reads as it was given and as the operations naming it have made it
      since: what was given at its creation never changes, its result, message and runner are those of the
      last operation that could set them, its status follows the claims, events and completions, and its
      events are those appended to it, in order. */
  lemma {:induction false} JobReads(sup: Supply, q: State, ops: seq<Op>, id: string, i: nat, j: nat)
    requires Kept(q) && i <= j <= |ops| && id in States(sup, q, ops)[i].jobs
    ensures var s := States(sup, q, ops);
      && s[i].tick <= s[j].tick && id in s[j].jobs
      && JobAfter(sup, s[i].tick, s[j].tick, ops[i..j], s[i].jobs[id], s[j].jobs[id])
    decreases j
  {
    hide States, Responses, Apply, JobAfter, Kept;
    var s := States(sup, q, ops);
    RunKeeps(sup, q, ops, i);
    if i == j {
      JobAfterNothing(sup, s[i], id);
      assert ops[i..j] == [];
    } else {
      JobReads(sup, q, ops, id, i, j - 1);
      RunKeeps(sup, q, ops, j - 1);
      StepOf(sup, q, ops, j - 1);
      assert s[i].jobs[id].id == id by { KeptUnderName(s[i], id); }
      JobAfterOne(sup, s[i].tick, s[j - 1], ops[i..j - 1], ops[j - 1], s[i].jobs[id]);
      assert ops[i..j] == ops[i..j - 1] + [ops[j - 1]];
    }
  }

  lemma KeptUnderName(q: State, id: string)
    requires Kept(q) && id in q.jobs
    ensures q.jobs[id].id == id
  {
  }

  // ----- When a job changes -----

  predicate Touches(op: Op, r: Response, id: string) {
    (op.Claim? || op.AppendEvent? || op.SetResult? || op.Complete?) && op.id == id && !r.Fails?
  }

  lemma TouchOnce(sup: Supply, q: State, op: Op, id: string)
    requires id in q.jobs
    ensures var (q', r) := Apply(sup, q, op);
      && id in q'.jobs
      && (!Touches(op, r, id) ==> q'.jobs[id] == q.jobs[id])
      && (Touches(op, r, id) ==> q.tick < q'.tick && q'.jobs[id].updatedAt == sup.clock(q'.tick - 1))
  {
    hide SortedKeys, InOrder, PendingJobs, TailEntries;
  }

  /** Main result: nothing but an accepted operation that names a job changes any part of it, and
      afterwards it shows the last instant read for that operation as its time of change. */
  lemma {:induction false} ChangesAreDated(sup: Supply, q: State, ops: seq<Op>, id: string, i: nat, j: nat)
    requires i <= j <= |ops| && id in States(sup, q, ops)[i].jobs
    requires forall k :: i < k < j ==> !Touches(ops[k], Responses(sup, q, ops)[k], id)
    ensures var s, rs := States(sup, q, ops), Responses(sup, q, ops);
      && id in s[j].jobs
      && (i == j || !Touches(ops[i], rs[i], id) ==> s[j].jobs[id] == s[i].jobs[id])
      && (i < j && Touches(ops[i], rs[i], id) ==>
        s[i].tick < s[i + 1].tick && s[j].jobs[id].updatedAt == sup.clock(s[i + 1].tick - 1))
    decreases j
  {
    hide States, Responses, Apply;
    if i < j {
      StepOf(sup, q, ops, j - 1);
      ChangesAreDated(sup, q, ops, id, i, j - 1);
      TouchOnce(sup, States(sup, q, ops)[j - 1], ops[j - 1], id);
    }
  }

  // ----- Creation -----

  /** A job is created exactly under a name not in use, its own or the next generated one; it is stored as
      given, pending, with one reading of the clock for both instants. */
  lemma CreatedAsGiven(sup: Supply, q: State, job: Job)
    ensures var (q', r) := Apply(sup, q, Create(job));
      var id := if job.id == "" then sup.names(q.minted) else job.id;
      && (r.TheJob? <==> id !in q.jobs)
      && (!r.TheJob? ==> r == Fails(Exists) && q'.jobs == q.jobs && q'.tick == q.tick)
      && (r.TheJob? ==>
        && q'.jobs == q.jobs[id := r.job] && q'.tick == q.tick + 1
        && r.job.id == id && r.job.status == "pending"
        && r.job.createdAt == sup.clock(q.tick) && r.job.updatedAt == sup.clock(q.tick)
        && r.job.tenant == job.tenant && r.job.toolType == job.toolType && r.job.target == job.target
        && r.job.program == job.program && r.job.config == job.config && r.job.claimedBy == job.claimedBy
        && r.job.events == job.events && r.job.result == job.result && r.job.errorMessage == job.errorMessage)
      && q'.minted == (if job.id == "" then q.minted + 1 else q.minted)
      && q'.runners == q.runners && q'.audit == q.audit
  {
  }

  predicate Creates(op: Op, r: Response, id: string) {
    op.Create? && r.TheJob? && r.job.id == id
  }

  /** In any run a job is known exactly when it was at the start or an accepted creation made it since. */
  lemma {:induction false} KnownIffCreated(sup: Supply, q: State, ops: seq<Op>, id: string, j: nat)
    requires j <= |ops|
    ensures id in States(sup, q, ops)[j].jobs <==>
      id in q.jobs || exists k :: 0 <= k < j && Creates(ops[k], Responses(sup, q, ops)[k], id)
    decreases j
  {
    hide States, Responses, Apply, Creates;
    if j > 0 {
      KnownIffCreated(sup, q, ops, id, j - 1);
      StepOf(sup, q, ops, j - 1);
      KnownOnce(sup, States(sup, q, ops)[j - 1], ops[j - 1], id);
    }
  }

  lemma KnownOnce(sup: Supply, q: State, op: Op, id: string)
    ensures var (q', r) := Apply(sup, q, op);
      id in q'.jobs <==> id in q.jobs || Creates(op, r, id)
  {
    hide SortedKeys, InOrder, PendingJobs, TailEntries;
  }

  // ----- The registry and the log -----

  ghost function LastHeartbeat(ops: seq<Op>, host: string): (r: seq<RunnerInfo>)
    ensures |r| <= 1 && forall x :: x in r ==> x.hostname == host
  {
    if ops == [] then []
    else
      var op := ops[|ops| - 1];
      if op.Heartbeat? && op.info.hostname == host then [op.info] else LastHeartbeat(ops[..|ops| - 1], host)
  }

  ghost predicate RunnerAfterBeat(sup: Supply, to: nat, beat: RunnerInfo, info: RunnerInfo) {
    info == beat.(lastSeen := info.lastSeen) && Stamped(sup, 0, to, beat.lastSeen, info.lastSeen)
  }

  ghost predicate HostAfter(sup: Supply, beat: seq<RunnerInfo>, a: State, b: State, host: string) {
    if beat != [] then host in b.runners && RunnerAfterBeat(sup, b.tick, beat[0], b.runners[host])
    else if host in a.runners then host in b.runners && b.runners[host] == a.runners[host]
    else host !in b.runners
  }

  /** What the registry holds after these operations, starting from a. */
  ghost predicate RegistryAfter(sup: Supply, ops: seq<Op>, a: State, b: State) {
    forall host :: HostAfter(sup, LastHeartbeat(ops, host), a, b, host)
  }

  // What one operation does to the registry.
  lemma HostOnce(sup: Supply, q: State, op: Op, host: string)
    ensures var q' := Apply(sup, q, op).0;
      && q.tick <= q'.tick
      && (op.Heartbeat? && op.info.hostname == host ==>
        host in q'.runners && RunnerAfterBeat(sup, q'.tick, op.info, q'.runners[host]))
      && (!(op.Heartbeat? && op.info.hostname == host) ==>
        (host in q'.runners <==> host in q.runners) && (host in q.runners ==> q'.runners[host] == q.runners[host]))
  {
    hide SortedKeys, InOrder, PendingJobs, TailEntries;
  }

  lemma RegistryAfterOne(sup: Supply, past: seq<Op>, op: Op, a: State, q: State)
    requires RegistryAfter(sup, past, a, q)
    ensures RegistryAfter(sup, past + [op], a, Apply(sup, q, op).0)
  {
    hide Apply;
    var ops, b := past + [op], Apply(sup, q, op).0;
    assert ops[..|ops| - 1] == past && ops[|ops| - 1] == op;
    forall host
      ensures HostAfter(sup, LastHeartbeat(ops, host), a, b, host)
    {
      HostOnce(sup, q, op, host);
      assert HostAfter(sup, LastHeartbeat(past, host), a, q, host);
    }
  }

  /** In any run the registry holds each runner as it last reported, stamped if it gave no instant. */
  lemma {:induction false} RegistryReads(sup: Supply, q: State, ops: seq<Op>, j: nat)
    requires j <= |ops|
    ensures RegistryAfter(sup, ops[..j], q, States(sup, q, ops)[j])
    decreases j
  {
    hide States, Apply, RegistryAfter;
    if j == 0 {
      RegistryAtFirst(sup, q);
      assert ops[..0] == [];
    } else {
      RegistryReads(sup, q, ops, j - 1);
      StepOf(sup, q, ops, j - 1);
      RegistryAfterOne(sup, ops[..j - 1], ops[j - 1], q, States(sup, q, ops)[j - 1]);
      assert ops[..j] == ops[..j - 1] + [ops[j - 1]];
    }
  }

  lemma RegistryAtFirst(sup: Supply, q: State)
    ensures RegistryAfter(sup, [], q, q)
  {
  }

  ghost function EntriesGiven(ops: seq<Op>): seq<AuditEntry> {
    if ops == [] then []
    else
      var op := ops[|ops| - 1];
      EntriesGiven(ops[..|ops| - 1]) + if op.Audit? then [op.entry] else []
  }

  ghost predicate StampedEntry(sup: Supply, to: nat, given: AuditEntry, e: AuditEntry) {
    e == given.(at := e.at) && Stamped(sup, 0, to, given.at, e.at)
  }

  ghost predicate LogAfter(sup: Supply, ops: seq<Op>, a: State, b: State) {
    var given := EntriesGiven(ops);
    && |b.audit| == |a.audit| + |given| && a.audit <= b.audit
    && forall k :: 0 <= k < |given| ==> StampedEntry(sup, b.tick, given[k], b.audit[|a.audit| + k])
  }

  lemma LogAfterOne(sup: Supply, past: seq<Op>, op: Op, a: State, q: State)
    requires LogAfter(sup, past, a, q)
    ensures LogAfter(sup, past + [op], a, Apply(sup, q, op).0)
  {
    hide SortedKeys, InOrder, PendingJobs, TailEntries;
    var ops, b := past + [op], Apply(sup, q, op).0;
    assert ops[..|ops| - 1] == past && ops[|ops| - 1] == op;
    ApplyEvolves(sup, q, op);
    var was, given := EntriesGiven(past), EntriesGiven(ops);
    if op.Audit? {
      assert b.audit[|q.audit|].at == if op.entry.at == 0 then sup.clock(q.tick) else op.entry.at;
      assert StampedEntry(sup, b.tick, op.entry, b.audit[|q.audit|]);
    } else {
      assert b.audit == q.audit && given == was;
    }
    forall k | 0 <= k < |given|
      ensures StampedEntry(sup, b.tick, given[k], b.audit[|a.audit| + k])
    {
      if k < |was| {
        assert StampedEntry(sup, q.tick, was[k], q.audit[|a.audit| + k]);
      }
    }
  }

  /** In any run the log is the entries given to it, in order, stamped where they gave no instant. */
  lemma {:induction false} LogReads(sup: Supply, q: State, ops: seq<Op>, j: nat)
    requires j <= |ops|
    ensures LogAfter(sup, ops[..j], q, States(sup, q, ops)[j])
    decreases j
  {
    hide States, Apply, LogAfter;
    if j == 0 {
      LogAtFirst(sup, q);
      assert ops[..0] == [];
    } else {
      LogReads(sup, q, ops, j - 1);
      StepOf(sup, q, ops, j - 1);
      LogAfterOne(sup, ops[..j - 1], ops[j - 1], q, States(sup, q, ops)[j - 1]);
      assert ops[..j] == ops[..j - 1] + [ops[j - 1]];
    }
  }

  lemma LogAtFirst(sup: Supply, q: State)
    ensures LogAfter(sup, [], q, q)
  {
  }

  // ----- Answers -----

  /** Reading changes nothing: a job is answered exactly when it is known, the pending list holds exactly the
      pending jobs, runners come once each by name, and the log's most recent entries come oldest first. */
  lemma ReadingAnswers(sup: Supply, q: State, op: Op)
    requires Kept(q)
    ensures var (q', r) := Apply(sup, q, op);
      && (op.Get? || op.Pending? || op.Runners? || op.AuditLog? ==> q' == q)
      && (op.Get? ==> r == if op.id in q.jobs then TheJob(q.jobs[op.id]) else Absent)
      && (op.Pending? ==> r.Jobs? && forall j ::
        j in r.jobs <==> j.status == "pending" && j.id in q.jobs && q.jobs[j.id] == j)
      && (op.Runners? ==> r.TheRunners?)
      && (r.TheRunners? ==>
        && (forall x :: x in r.runners <==> x.hostname in q.runners && q.runners[x.hostname] == x)
        && forall m, n :: 0 <= m < n < |r.runners| ==> Less(r.runners[m].hostname, r.runners[n].hostname))
      && (op.AuditLog? ==> r.Log?)
      && (r.Log? ==>
        && |r.entries| == (if op.limit <= 0 || op.limit >= |q.audit| then |q.audit| else op.limit)
        && r.entries == q.audit[|q.audit| - |r.entries|..])
  {
    if op.Runners? {
      hide PendingJobs, TailEntries;
      ListedByName(q);
    } else {
      hide SortedKeys, InOrder;
    }
  }

  lemma ListedByName(q: State)
    requires Kept(q)
    ensures var out := InOrder(q.runners, SortedKeys(q.runners.Keys));
      && (forall x :: x in out <==> x.hostname in q.runners && q.runners[x.hostname] == x)
      && forall m, n :: 0 <= m < n < |out| ==> Less(out[m].hostname, out[n].hostname)
  {
    hide Less;
    var names := SortedKeys(q.runners.Keys);
    var out := InOrder(q.runners, names);
    assert forall k :: 0 <= k < |out| ==> names[k] in names && out[k].hostname == names[k];
    forall x
      ensures x in out <==> x.hostname in q.runners && q.runners[x.hostname] == x
    {
      if x.hostname in q.runners && q.runners[x.hostname] == x {
        assert x.hostname in names;
        var k :| 0 <= k < |names| && names[k] == x.hostname;
        assert out[k] == x;
      }
    }
  }

  /** A refused operation leaves every job, every runner and the log as they are. */
  lemma RefusalsChangeNothing(sup: Supply, q: State, op: Op)
    ensures var (q', r) := Apply(sup, q, op);
      r.Fails? ==> q'.jobs == q.jobs && q'.runners == q.runners && q'.audit == q.audit && q'.tick == q.tick
  {
  }
}
