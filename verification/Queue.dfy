/** The job queue as a state and its operations, shared by both store implementations. */
module Queue {
  import opened Sorting

  /** An instant; 0 is the zero time of an unset field. */
  type Time = int

  datatype Event = Event(kind: string, text: string, at: Time)

  datatype Job = Job(
    id: string, tenant: string, toolType: string, target: string, program: string, config: string, status: string,
    errorMessage: string, claimedBy: string, events: seq<Event>, result: string, createdAt: Time, updatedAt: Time)

  datatype RunnerInfo = RunnerInfo(hostname: string, version: string, os: string, tools: seq<string>, lastSeen: Time)

  datatype AuditEntry = AuditEntry(at: Time, tenant: string, action: string, jobId: string, actor: string,
      detail: string)

  const PENDING := "pending"
  const CLAIMED := "claimed"
  const RUNNING := "running"
  const DONE := "done"
  const FAILED := "failed"

  datatype Error = Exists | NotFound | AlreadyClaimed | InvalidStatus

  /** The clock's successive readings and the identifiers generated one after another. */
  datatype Supply = Supply(clock: nat -> Time, names: nat -> string)

  /** tick and minted count the clock readings and identifiers used up. */
  datatype State = State(
    jobs: map<string, Job>, runners: map<string, RunnerInfo>, audit: seq<AuditEntry>, tick: nat, minted: nat)

  const EMPTY := State(map[], map[], [], 0, 0)

  datatype Op =
    | Create(job: Job)
    | Get(id: string)
    | Pending
    | Claim(id: string, runner: string)
    | AppendEvent(id: string, event: Event)
    | SetResult(id: string, result: string)
    | Complete(id: string, status: string, message: string)
    | Heartbeat(info: RunnerInfo)
    | Runners
    | Audit(entry: AuditEntry)
    | AuditLog(limit: int)

  /** Pending jobs are compared as a set. */
  datatype Response =
    | Ok
    | Fails(error: Error)
    | TheJob(job: Job)
    | Absent
    | Jobs(jobs: set<Job>)
    | TheRunners(runners: seq<RunnerInfo>)
    | Log(entries: seq<AuditEntry>)

  // ----- The operations -----

  function CreateIn(sup: Supply, q: State, job: Job): (State, Response) {
    var minted := job.id == "";
    var id := if minted then sup.names(q.minted) else job.id;
    var q' := if minted then q.(minted := q.minted + 1) else q;
    if id in q.jobs then (q', Fails(Exists))
    else
      var now := sup.clock(q.tick);
      var stored := job.(id := id, status := PENDING, createdAt := now, updatedAt := now);
      (q'.(jobs := q.jobs[id := stored], tick := q.tick + 1), TheJob(stored))
  }

  function ClaimIn(sup: Supply, q: State, id: string, runner: string): (State, Response) {
    if id !in q.jobs then (q, Fails(NotFound))
    else if q.jobs[id].status != PENDING then (q, Fails(AlreadyClaimed))
    else
      var job := q.jobs[id].(status := CLAIMED, claimedBy := runner, updatedAt := sup.clock(q.tick));
      (q.(jobs := q.jobs[id := job], tick := q.tick + 1), TheJob(job))
  }

  function AppendIn(sup: Supply, q: State, id: string, event: Event): (State, Response) {
    if id !in q.jobs then (q, Fails(NotFound))
    else
      var job := q.jobs[id];
      var stamped := if event.at == 0 then event.(at := sup.clock(q.tick)) else event;
      var tick := if event.at == 0 then q.tick + 1 else q.tick;
      var status := if event.kind == "running" && job.status == CLAIMED then RUNNING else job.status;
      var next := job.(events := job.events + [stamped], status := status, updatedAt := sup.clock(tick));
      (q.(jobs := q.jobs[id := next], tick := tick + 1), Ok)
  }

  function SetResultIn(sup: Supply, q: State, id: string, result: string): (State, Response) {
    if id !in q.jobs then (q, Fails(NotFound))
    else
      var job := q.jobs[id].(result := result, updatedAt := sup.clock(q.tick));
      (q.(jobs := q.jobs[id := job], tick := q.tick + 1), Ok)
  }

  function CompleteIn(sup: Supply, q: State, id: string, status: string, message: string): (State, Response) {
    if status != DONE && status != FAILED then (q, Fails(InvalidStatus))
    else if id !in q.jobs then (q, Fails(NotFound))
    else
      var job := q.jobs[id].(status := status, errorMessage := message, updatedAt := sup.clock(q.tick));
      (q.(jobs := q.jobs[id := job], tick := q.tick + 1), Ok)
  }

  function HeartbeatIn(sup: Supply, q: State, info: RunnerInfo): State {
    var seen := if info.lastSeen == 0 then info.(lastSeen := sup.clock(q.tick)) else info;
    q.(runners := q.runners[info.hostname := seen], tick := if info.lastSeen == 0 then q.tick + 1 else q.tick)
  }

  function AuditIn(sup: Supply, q: State, entry: AuditEntry): State {
    var stamped := if entry.at == 0 then entry.(at := sup.clock(q.tick)) else entry;
    q.(audit := q.audit + [stamped], tick := if entry.at == 0 then q.tick + 1 else q.tick)
  }

  function PendingJobs(jobs: map<string, Job>): set<Job> {
    set id | id in jobs && jobs[id].status == PENDING :: jobs[id]
  }

  ghost function InOrder(runners: map<string, RunnerInfo>, names: seq<string>): (r: seq<RunnerInfo>)
    requires forall n :: n in names ==> n in runners
    ensures |r| == |names| && forall i :: 0 <= i < |names| ==> r[i] == runners[names[i]]
  {
    if names == [] then [] else [runners[names[0]]] + InOrder(runners, names[1..])
  }

  /** The most recent entries, oldest first; a limit of zero or less keeps them all. */
  function TailEntries(all: seq<AuditEntry>, limit: int): seq<AuditEntry> {
    if 0 < limit < |all| then all[|all| - limit..] else all
  }

  ghost function Apply(sup: Supply, q: State, op: Op): (State, Response) {
    match op
    case Create(job) => CreateIn(sup, q, job)
    case Get(id) => (q, if id in q.jobs then TheJob(q.jobs[id]) else Absent)
    case Pending => (q, Jobs(PendingJobs(q.jobs)))
    case Claim(id, runner) => ClaimIn(sup, q, id, runner)
    case AppendEvent(id, event) => AppendIn(sup, q, id, event)
    case SetResult(id, result) => SetResultIn(sup, q, id, result)
    case Complete(id, status, message) => CompleteIn(sup, q, id, status, message)
    case Heartbeat(info) => (HeartbeatIn(sup, q, info), Ok)
    case Runners => (q, TheRunners(InOrder(q.runners, SortedKeys(q.runners.Keys))))
    case Audit(entry) => (AuditIn(sup, q, entry), Ok)
    case AuditLog(limit) => (q, Log(TailEntries(q.audit, limit)))
  }

  /** The states a run of operations passes through, from the first to the last. */
  ghost function States(sup: Supply, q: State, ops: seq<Op>): (s: seq<State>)
    ensures |s| == |ops| + 1 && s[0] == q
    decreases |ops|
  {
    if ops == [] then [q] else [q] + States(sup, Apply(sup, q, ops[0]).0, ops[1..])
  }

  /** The responses of a run, in order. */
  ghost function Responses(sup: Supply, q: State, ops: seq<Op>): (r: seq<Response>)
    ensures |r| == |ops|
    decreases |ops|
  {
    if ops == [] then []
    else var (q', r) := Apply(sup, q, ops[0]); [r] + Responses(sup, q', ops[1..])
  }

  lemma {:induction false} StepOf(sup: Supply, q: State, ops: seq<Op>, i: nat)
    requires i < |ops|
    ensures Apply(sup, States(sup, q, ops)[i], ops[i]) == (States(sup, q, ops)[i + 1], Responses(sup, q, ops)[i])
    decreases i
  {
    hide Apply;
    if i > 0 {
      StepOf(sup, Apply(sup, q, ops[0]).0, ops[1..], i - 1);
    }
  }

  // ----- Properties of every run -----

  /** What one operation may do to a stored job. */
  ghost predicate JobStep(a: Job, b: Job) {
    && b.id == a.id && b.createdAt == a.createdAt && b.config == a.config && a.events <= b.events
    && (a.status != PENDING ==> b.status != PENDING && b.claimedBy == a.claimedBy)
    && (a.status == PENDING && b.status == PENDING ==> b.claimedBy == a.claimedBy)
  }

  /** Jobs are never lost, re-opened or re-assigned, and the audit log only grows. */
  ghost predicate Evolves(a: State, b: State) {
    && (forall id :: id in a.jobs ==> id in b.jobs && JobStep(a.jobs[id], b.jobs[id]))
    && a.audit <= b.audit && a.tick <= b.tick && a.minted <= b.minted
  }

  lemma ApplyEvolves(sup: Supply, q: State, op: Op)
    ensures Evolves(q, Apply(sup, q, op).0)
  {
    hide SortedKeys, InOrder, PendingJobs, TailEntries;
    match op {
      case Create(job) =>
      case Claim(id, runner) =>
      case AppendEvent(id, event) =>
      case SetResult(id, result) =>
      case Complete(id, status, message) =>
      case _ =>
    }
  }

  lemma EvolvesTransitive(a: State, b: State, c: State)
    requires Evolves(a, b) && Evolves(b, c)
    ensures Evolves(a, c)
  {
  }

  lemma {:induction false} RunEvolves(sup: Supply, q: State, ops: seq<Op>, i: nat, j: nat)
    requires i <= j <= |ops|
    ensures Evolves(States(sup, q, ops)[i], States(sup, q, ops)[j])
    decreases j - i
  {
    hide Evolves, Apply, States;
    if i < j {
      RunEvolves(sup, q, ops, i, j - 1);
      StepOf(sup, q, ops, j - 1);
      ApplyEvolves(sup, States(sup, q, ops)[j - 1], ops[j - 1]);
      EvolvesTransitive(States(sup, q, ops)[i], States(sup, q, ops)[j - 1], States(sup, q, ops)[j]);
    } else {
      EvolvesReflexive(States(sup, q, ops)[i]);
    }
  }

  lemma EvolvesReflexive(a: State)
    ensures Evolves(a, a)
  {
  }

  /** A claim succeeds exactly when it hands over a job. */
  predicate Claimed(op: Op, r: Response) {
    op.Claim? && r.TheJob?
  }

  /** Main result: in any run, from any state, a job once claimed stays claimed by that runner and
      every later claim of it fails; a job that left the pending set never returns to it. */
  lemma ClaimedAtMostOnce(sup: Supply, q: State, ops: seq<Op>, i: nat, j: nat)
    requires i < j < |ops| && Claimed(ops[i], Responses(sup, q, ops)[i])
    ensures var s, id := States(sup, q, ops), ops[i].id;
      id in s[j].jobs && s[j].jobs[id].claimedBy == ops[i].runner && s[j].jobs[id].status != PENDING
    ensures ops[j].Claim? && ops[j].id == ops[i].id ==> Responses(sup, q, ops)[j] == Fails(AlreadyClaimed)
  {
    hide States, Responses;
    var s := States(sup, q, ops);
    StepOf(sup, q, ops, i);
    RunEvolves(sup, q, ops, i + 1, j);
    assert s[i + 1].jobs[ops[i].id].status == CLAIMED;
    StepOf(sup, q, ops, j);
  }

  /** Every job and runner is stored under its own name. */
  ghost predicate Kept(q: State) {
    && (forall id :: id in q.jobs ==> q.jobs[id].id == id)
    && forall h :: h in q.runners ==> q.runners[h].hostname == h
  }

  lemma ApplyKeeps(sup: Supply, q: State, op: Op)
    requires Kept(q)
    ensures Kept(Apply(sup, q, op).0)
  {
  }

  lemma {:induction false} RunKeeps(sup: Supply, q: State, ops: seq<Op>, i: nat)
    requires Kept(q) && i <= |ops|
    ensures Kept(States(sup, q, ops)[i])
    decreases i
  {
    hide Kept, Apply, States;
    if i > 0 {
      RunKeeps(sup, q, ops, i - 1);
      StepOf(sup, q, ops, i - 1);
      ApplyKeeps(sup, States(sup, q, ops)[i - 1], ops[i - 1]);
    }
  }

  /** In any run a claim succeeds exactly when the job is among those a listing would show as pending
      at that moment, and then hands over that job to the runner. */
  lemma ClaimIffPending(sup: Supply, q: State, ops: seq<Op>, i: nat)
    requires Kept(q) && i < |ops| && ops[i].Claim?
    ensures var q', r := States(sup, q, ops)[i], Responses(sup, q, ops)[i];
      && (r.TheJob? <==> exists j :: j in PendingJobs(q'.jobs) && j.id == ops[i].id)
      && (r.TheJob? ==> r.job.id == ops[i].id && r.job.status == CLAIMED && r.job.claimedBy == ops[i].runner)
  {
    hide States, Responses;
    StepOf(sup, q, ops, i);
    RunKeeps(sup, q, ops, i);
    var q', id := States(sup, q, ops)[i], ops[i].id;
    if id in q'.jobs && q'.jobs[id].status == PENDING {
      assert q'.jobs[id] in PendingJobs(q'.jobs);
    }
  }

  // ----- How a job ends -----

  /** Only another completion changes what a completed job says about its end. */
  ghost predicate Ends(q: State, id: string, status: string, message: string) {
    id in q.jobs && q.jobs[id].status == status && q.jobs[id].errorMessage == message
  }

  /** An operation that may end this job anew. */
  predicate Completes(op: Op, id: string) {
    op.Complete? && op.id == id
  }

  lemma EndStays(sup: Supply, q: State, op: Op, id: string, status: string, message: string)
    requires Ends(q, id, status, message) && (status == "done" || status == "failed") && !Completes(op, id)
    ensures Ends(Apply(sup, q, op).0, id, status, message)
  {
    hide SortedKeys, InOrder, PendingJobs, TailEntries;
  }

  /** A completion is accepted exactly for a known job and one of the two final statuses, and then the
      job has the status and the message it was given. */
  lemma CompleteEnds(sup: Supply, q: State, id: string, status: string, message: string)
    ensures var (q', r) := Apply(sup, q, Complete(id, status, message));
      && (r.Ok? <==> id in q.jobs && (status == "done" || status == "failed"))
      && (r.Ok? ==> Ends(q', id, status, message))
      && (!r.Ok? ==> q' == q)
  {
  }

  /** Main result: in any run, from any state, after an accepted completion the job has the given status
      and message, and keeps both until it is completed again. */
  lemma {:induction false} CompletedStays(sup: Supply, q: State, ops: seq<Op>, i: nat, j: nat)
    requires i < j <= |ops| && ops[i].Complete? && Responses(sup, q, ops)[i].Ok?
    requires forall k :: i < k < j ==> !Completes(ops[k], ops[i].id)
    ensures Ends(States(sup, q, ops)[j], ops[i].id, ops[i].status, ops[i].message)
    decreases j
  {
    hide States, Responses, Ends, Apply;
    StepOf(sup, q, ops, j - 1);
    StepOf(sup, q, ops, i);
    CompleteEnds(sup, States(sup, q, ops)[i], ops[i].id, ops[i].status, ops[i].message);
    if i < j - 1 {
      CompletedStays(sup, q, ops, i, j - 1);
      EndStays(sup, States(sup, q, ops)[j - 1], ops[j - 1], ops[i].id, ops[i].status, ops[i].message);
    }
  }
}
