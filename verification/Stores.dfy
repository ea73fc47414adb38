/** The two job stores: one keeps records in memory and changes them in place, the other
    keeps documents in a table beside a promoted status column. */
module Stores {
  import opened Basics
  import opened Sorting
  import opened Queue

  // ----- In memory -----

  class Record {
    var job: Job

    constructor (job: Job)
      ensures this.job == job
    {
      this.job := job;
    }
  }

  class Memory {
    const supply: Supply
    var jobs: map<string, Record>
    var runners: map<string, RunnerInfo>
    var audit: seq<AuditEntry>
    var tick: nat
    var minted: nat

    constructor (supply: Supply)
      ensures Valid() && Contents() == EMPTY && this.supply == supply && jobs == map[]
    {
      this.supply := supply;
      jobs, runners, audit, tick, minted := map[], map[], [], 0, 0;
    }

    ghost function Contents(): State
      reads this, jobs.Values
    {
      State(map id | id in jobs :: jobs[id].job, runners, audit, tick, minted)
    }

    ghost predicate Valid()
      reads this, jobs.Values
    {
      && Kept(Contents())
      && forall a, b :: a in jobs && b in jobs && a != b ==> jobs[a] != jobs[b]
    }

    lemma KeptId(id: string)
      requires Valid() && id in jobs
      ensures jobs[id].job.id == id
    {
      assert Contents().jobs[id] == jobs[id].job;
    }

    lemma KeptIds()
      requires Valid()
      ensures forall id :: id in jobs ==> jobs[id].job.id == id
    {
      forall id | id in jobs
        ensures jobs[id].job.id == id
      {
        KeptId(id);
      }
    }

    lemma Apart(id: string)
      requires Valid() && id in jobs
      ensures forall x :: x in jobs && x != id ==> jobs[x] != jobs[id]
    {
    }

    // One record was rewritten in place and nothing else in the store.
    twostate lemma Rewritten(id: string)
      requires old(Valid()) && jobs == old(jobs) && id in jobs && runners == old(runners) && audit == old(audit)
        && minted == old(minted)
      requires jobs[id].job.id == id && forall x :: x in jobs && x != id ==> jobs[x].job == old(jobs[x].job)
      ensures Valid() && Contents() == old(Contents()).(jobs := old(Contents()).jobs[id := jobs[id].job], tick := tick)
    {
      assert Contents().jobs == old(Contents()).jobs[id := jobs[id].job];
    }

    twostate lemma Added(job: Job, new record: Record)
      requires old(Valid()) && job.id !in old(jobs) && jobs == old(jobs)[job.id := record]
      requires record.job == job && record !in old(jobs.Values)
      requires runners == old(runners) && audit == old(audit)
      requires forall x :: x in old(jobs) ==> jobs[x].job == old(jobs[x].job)
      ensures Valid() && Contents() == old(Contents()).(jobs := old(Contents()).jobs[job.id := job], tick := tick,
        minted := minted)
    {
      assert Contents().jobs == old(Contents()).jobs[job.id := job];
    }

    twostate lemma Untouched()
      requires old(Valid()) && jobs == old(jobs) && runners == old(runners) && audit == old(audit)
      requires forall x :: x in jobs ==> jobs[x].job == old(jobs[x].job)
      ensures Valid() && Contents() == old(Contents()).(tick := tick, minted := minted)
    {
      assert Contents().jobs == old(Contents()).jobs;
    }

    method Now() returns (t: Time)
      modifies this`tick
      ensures t == supply.clock(old(tick)) && tick == old(tick) + 1
    {
      t := supply.clock(tick);
      tick := tick + 1;
    }

    method Create(given: Job) returns (r: Response)
      requires Valid()
      modifies this
      ensures Valid() && (Contents(), r) == CreateIn(supply, old(Contents()), given)
      ensures forall x :: x in jobs.Values ==> x in old(jobs.Values) || fresh(x)
    {
      hide Kept, Valid;
      var job := given;
      if job.id == "" {
        job := job.(id := supply.names(minted));
        minted := minted + 1;
      }
      if job.id in jobs {
        Untouched();
        return Fails(Exists);
      }
      var now := Now();
      job := job.(status := PENDING, createdAt := now, updatedAt := now);
      var stored := new Record(job);
      jobs := jobs[job.id := stored];
      Added(job, stored);
      return TheJob(job);
    }

    method Get(id: string) returns (r: Response)
      requires Valid()
      ensures r == Apply(supply, Contents(), Queue.Get(id)).1
    {
      if id !in jobs {
        return Absent;
      }
      return TheJob(jobs[id].job);
    }

    /** Each pending job once, oldest first. */
    method Pending() returns (out: seq<Job>)
      requires Valid()
      ensures (set j | j in out) == PendingJobs(Contents().jobs)
      ensures Aged(out)
    {
      out := [];
      var left := jobs.Keys;
      while left != {}
        invariant left <= jobs.Keys
        invariant forall j :: j in out <==>
          exists id :: id in jobs.Keys - left && jobs[id].job.status == PENDING && jobs[id].job == j
        invariant Aged(out)
        decreases left
      {
        var id :| id in left;
        left := left - {id};
        var job := jobs[id].job;
        KeptIds();
        if job.status == PENDING {
          out := ByAge(out, job);
        }
      }
      ghost var q := Contents();
      assert forall id :: id in jobs ==> q.jobs[id] == jobs[id].job;
      assert jobs.Keys - left == jobs.Keys;
    }

    method Claim(id: string, runner: string) returns (r: Response)
      requires Valid()
      modifies this, jobs.Values
      ensures Valid() && jobs == old(jobs) && (Contents(), r) == ClaimIn(supply, old(Contents()), id, runner)
    {
      hide Kept;
      if id !in jobs {
        return Fails(NotFound);
      }
      KeptId(id);
      var j := jobs[id];
      if j.job.status != PENDING {
        return Fails(AlreadyClaimed);
      }
      j.job := j.job.(status := CLAIMED);
      j.job := j.job.(claimedBy := runner);
      var now := Now();
      j.job := j.job.(updatedAt := now);
      Rewritten(id);
      return TheJob(j.job);
    }

    method AppendEvent(id: string, given: Event) returns (r: Response)
      requires Valid()
      modifies this, jobs.Values
      ensures Valid() && jobs == old(jobs) && (Contents(), r) == AppendIn(supply, old(Contents()), id, given)
    {
      hide Kept, Valid;
      if id !in jobs {
        return Fails(NotFound);
      }
      KeptId(id);
      Apart(id);
      var j, event := jobs[id], given;
      if event.at == 0 {
        var at := Now();
        event := event.(at := at);
      }
      j.job := j.job.(events := j.job.events + [event]);
      if event.kind == "running" && j.job.status == CLAIMED {
        j.job := j.job.(status := RUNNING);
      }
      var now := Now();
      j.job := j.job.(updatedAt := now);
      Rewritten(id);
      return Ok;
    }

    method SetResult(id: string, result: string) returns (r: Response)
      requires Valid()
      modifies this, jobs.Values
      ensures Valid() && jobs == old(jobs) && (Contents(), r) == SetResultIn(supply, old(Contents()), id, result)
    {
      hide Kept;
      if id !in jobs {
        return Fails(NotFound);
      }
      KeptId(id);
      var now := Now();
      jobs[id].job := jobs[id].job.(result := result, updatedAt := now);
      Rewritten(id);
      return Ok;
    }

    method Complete(id: string, status: string, message: string) returns (r: Response)
      requires Valid()
      modifies this, jobs.Values
      ensures Valid() && jobs == old(jobs)
        && (Contents(), r) == CompleteIn(supply, old(Contents()), id, status, message)
    {
      hide Kept;
      if status != DONE && status != FAILED {
        return Fails(InvalidStatus);
      }
      if id !in jobs {
        return Fails(NotFound);
      }
      KeptId(id);
      var now := Now();
      jobs[id].job := jobs[id].job.(status := status, errorMessage := message, updatedAt := now);
      Rewritten(id);
      return Ok;
    }

    method Heartbeat(given: RunnerInfo)
      requires Valid()
      modifies this
      ensures Valid() && jobs == old(jobs) && Contents() == HeartbeatIn(supply, old(Contents()), given)
    {
      hide Kept;
      var info := given;
      if info.lastSeen == 0 {
        var now := Now();
        info := info.(lastSeen := now);
      }
      runners := runners[info.hostname := info];
      assert Contents().jobs == old(Contents()).jobs;
      ApplyKeeps(supply, old(Contents()), Queue.Heartbeat(given));
    }

    method Runners() returns (out: seq<RunnerInfo>)
      ensures out == InOrder(runners, SortedKeys(runners.Keys))
    {
      var names := SortNames(runners.Keys);
      out := Enumerate(runners, names);
    }

    method Audit(given: AuditEntry)
      requires Valid()
      modifies this
      ensures Valid() && jobs == old(jobs) && Contents() == AuditIn(supply, old(Contents()), given)
    {
      var entry := given;
      if entry.at == 0 {
        var now := Now();
        entry := entry.(at := now);
      }
      audit := audit + [entry];
    }

    method AuditLog(limit: int) returns (out: seq<AuditEntry>)
      ensures out == TailEntries(audit, limit)
    {
      var start := 0;
      if limit > 0 && |audit| > limit {
        start := |audit| - limit;
      }
      return audit[start..];
    }

    method Do(op: Op) returns (r: Response)
      requires Valid()
      modifies this, jobs.Values
      ensures Valid() && (Contents(), r) == Apply(supply, old(Contents()), op)
      ensures forall x :: x in jobs.Values ==> x in old(jobs.Values) || fresh(x)
    {
      hide Kept, Valid, CreateIn, ClaimIn, AppendIn, SetResultIn, CompleteIn, HeartbeatIn, AuditIn, TailEntries,
           InOrder;
      match op {
        case Create(job) =>
          r := Create(job);
        case Get(id) =>
          r := Get(id);
        case Pending =>
          var out := Pending();
          r := Jobs(set j | j in out);
        case Claim(id, runner) =>
          r := Claim(id, runner);
        case AppendEvent(id, event) =>
          r := AppendEvent(id, event);
        case SetResult(id, result) =>
          r := SetResult(id, result);
        case Complete(id, status, message) =>
          r := Complete(id, status, message);
        case Heartbeat(info) =>
          Heartbeat(info);
          r := Ok;
        case Runners =>
          var out := Runners();
          r := TheRunners(out);
        case Audit(entry) =>
          Audit(entry);
          r := Ok;
        case AuditLog(limit) =>
          var out := AuditLog(limit);
          r := Log(out);
      }
    }
  }

  /** Different jobs, oldest first. */
  ghost predicate Aged(s: seq<Job>) {
    forall i, j :: 0 <= i < j < |s| ==> s[i].id != s[j].id && s[i].createdAt <= s[j].createdAt
  }

  /** Inserts behind everything at most as old. */
  method ByAge(s: seq<Job>, job: Job) returns (r: seq<Job>)
    requires Aged(s) && forall j :: j in s ==> j.id != job.id
    ensures Aged(r) && forall j :: j in r <==> j in s || j == job
  {
    var i := |s|;
    while i > 0 && s[i - 1].createdAt > job.createdAt
      invariant 0 <= i <= |s| && (i < |s| ==> job.createdAt < s[i].createdAt)
    {
      i := i - 1;
    }
    r := s[..i] + [job] + s[i..];
    PutAt(s, i, job);
    PutInOrder(s, i, job, r);
  }

  lemma PutAt<T>(s: seq<T>, i: nat, x: T)
    requires i <= |s|
    ensures var r := s[..i] + [x] + s[i..];
      && |r| == |s| + 1
      && (forall k :: 0 <= k < i ==> r[k] == s[k]) && r[i] == x && (forall k :: i < k < |r| ==> r[k] == s[k - 1])
      && (forall y :: y in r <==> y in s || y == x)
  {
    assert s == s[..i] + s[i..];
  }

  lemma PutInOrder(s: seq<Job>, i: nat, job: Job, r: seq<Job>)
    requires Aged(s) && i <= |s| && |r| == |s| + 1 && (forall j :: j in s ==> j.id != job.id)
    requires (forall k :: 0 <= k < i ==> r[k] == s[k]) && r[i] == job && (forall k :: i < k < |r| ==> r[k] == s[k - 1])
    requires (i > 0 ==> s[i - 1].createdAt <= job.createdAt) && (i < |s| ==> job.createdAt < s[i].createdAt)
    ensures Aged(r)
  {
    forall m, n | 0 <= m < n < |r|
      ensures r[m].id != r[n].id && r[m].createdAt <= r[n].createdAt
    {
      if m != i && n != i {
        var m', n' := if m < i then m else m - 1, if n < i then n else n - 1;
        assert r[m] == s[m'] && r[n] == s[n'];
      } else if n == i {
        assert s[m] in s && r[m] == s[m] && (m < i - 1 ==> s[m].createdAt <= s[i - 1].createdAt);
      } else {
        assert s[n - 1] in s && r[n] == s[n - 1] && (i < n - 1 ==> s[i].createdAt <= s[n - 1].createdAt);
      }
    }
  }

  method Enumerate(runners: map<string, RunnerInfo>, names: seq<string>) returns (out: seq<RunnerInfo>)
    requires forall n :: n in names ==> n in runners
    ensures out == InOrder(runners, names)
  {
    out := [];
    for i := 0 to |names|
      invariant |out| == i && forall k :: 0 <= k < i ==> out[k] == runners[names[k]]
    {
      out := out + [runners[names[i]]];
    }
  }

  // ----- In a database -----

  /** A job's document with the columns queries use. */
  datatype JobRow = JobRow(status: string, createdAt: string, data: string)

  datatype AuditRow = AuditRow(at: string, tenant: string, action: string, jobId: string, actor: string, detail: string)

  /** The encodings of documents and instants, taken as given. */
  datatype Codec = Codec(
    job: Job -> string, parseJob: string -> Option<Job>,
    runner: RunnerInfo -> string, parseRunner: string -> Option<RunnerInfo>,
    instant: Time -> string, parseInstant: string -> Option<Time>)

  ghost predicate Lossless(c: Codec) {
    && (forall j :: c.parseJob(c.job(j)) == Some(j))
    && (forall r :: c.parseRunner(c.runner(r)) == Some(r))
    && (forall t :: c.parseInstant(c.instant(t)) == Some(t))
  }

  function EntryOf(c: Codec, row: AuditRow): AuditEntry {
    var at := c.parseInstant(row.at);
    AuditEntry(if at.Some? then at.value else 0, row.tenant, row.action, row.jobId, row.actor, row.detail)
  }

  function Entries(c: Codec, log: seq<AuditRow>): seq<AuditEntry> {
    seq(|log|, i requires 0 <= i < |log| => EntryOf(c, log[i]))
  }

  /** The document decodes to a job filed under its own id, and the columns agree with it. */
  ghost predicate RowOk(c: Codec, id: string, row: JobRow) {
    var j := c.parseJob(row.data);
    j.Some? && j.value.id == id && row.status == j.value.status && row.createdAt == c.instant(j.value.createdAt)
  }

  ghost predicate HostOk(c: Codec, host: string, data: string) {
    var r := c.parseRunner(data);
    r.Some? && r.value.hostname == host
  }

  ghost predicate TablesOk(c: Codec, rows: map<string, JobRow>, hosts: map<string, string>) {
    && (forall id :: id in rows ==> RowOk(c, id, rows[id]))
    && forall h :: h in hosts ==> HostOk(c, h, hosts[h])
  }

  ghost function JobsOf(c: Codec, rows: map<string, JobRow>): map<string, Job> {
    map id | id in rows && c.parseJob(rows[id].data).Some? :: c.parseJob(rows[id].data).value
  }

  ghost function RunnersOf(c: Codec, hosts: map<string, string>): map<string, RunnerInfo> {
    map h | h in hosts && c.parseRunner(hosts[h]).Some? :: c.parseRunner(hosts[h]).value
  }

  function RowOf(c: Codec, j: Job): JobRow {
    JobRow(j.status, c.instant(j.createdAt), c.job(j))
  }

  lemma RunnerRead(c: Codec, rows: map<string, JobRow>, hosts: map<string, string>, h: string)
    requires TablesOk(c, rows, hosts) && h in hosts
    ensures h in RunnersOf(c, hosts) && c.parseRunner(hosts[h]) == Some(RunnersOf(c, hosts)[h])
  {
  }

  lemma TablesFacts(c: Codec, rows: map<string, JobRow>, hosts: map<string, string>)
    requires TablesOk(c, rows, hosts)
    ensures JobsOf(c, rows).Keys == rows.Keys && RunnersOf(c, hosts).Keys == hosts.Keys
    ensures forall id :: id in rows ==> JobsOf(c, rows)[id].id == id && rows[id].status == JobsOf(c, rows)[id].status
    ensures forall id :: id in rows ==> rows[id].createdAt == c.instant(JobsOf(c, rows)[id].createdAt)
    ensures forall h :: h in hosts ==> RunnersOf(c, hosts)[h].hostname == h
  {
    forall id | id in rows
      ensures id in JobsOf(c, rows) && JobsOf(c, rows)[id].id == id
      ensures rows[id].status == JobsOf(c, rows)[id].status
        && rows[id].createdAt == c.instant(JobsOf(c, rows)[id].createdAt)
    {
      assert RowOk(c, id, rows[id]);
    }
    forall h | h in hosts
      ensures h in RunnersOf(c, hosts) && RunnersOf(c, hosts)[h].hostname == h
    {
      assert HostOk(c, h, hosts[h]);
    }
  }

  // Writing a job's row changes that job alone.
  lemma RowWritten(c: Codec, rows: map<string, JobRow>, hosts: map<string, string>, j: Job)
    requires Lossless(c) && TablesOk(c, rows, hosts)
    ensures TablesOk(c, rows[j.id := RowOf(c, j)], hosts)
    ensures JobsOf(c, rows[j.id := RowOf(c, j)]) == JobsOf(c, rows)[j.id := j]
  {
  }

  lemma HostWritten(c: Codec, rows: map<string, JobRow>, hosts: map<string, string>, r: RunnerInfo)
    requires Lossless(c) && TablesOk(c, rows, hosts)
    ensures TablesOk(c, rows, hosts[r.hostname := c.runner(r)])
    ensures RunnersOf(c, hosts[r.hostname := c.runner(r)]) == RunnersOf(c, hosts)[r.hostname := r]
  {
  }

  class SQLite {
    const supply: Supply
    const codec: Codec
    var rows: map<string, JobRow>
    var hosts: map<string, string>
    var log: seq<AuditRow>
    var tick: nat
    var minted: nat

    constructor (supply: Supply, codec: Codec)
      requires Lossless(codec)
      ensures Valid() && Contents() == EMPTY && this.supply == supply
    {
      this.supply, this.codec := supply, codec;
      rows, hosts, log, tick, minted := map[], map[], [], 0, 0;
    }

    ghost function Contents(): State
      reads this
    {
      State(JobsOf(codec, rows), RunnersOf(codec, hosts), Entries(codec, log), tick, minted)
    }

    ghost predicate Valid()
      reads this
    {
      Lossless(codec) && TablesOk(codec, rows, hosts)
    }

    method Now() returns (t: Time)
      modifies this`tick
      ensures t == supply.clock(old(tick)) && tick == old(tick) + 1
    {
      t := supply.clock(tick);
      tick := tick + 1;
    }

    method Load(id: string) returns (j: Option<Job>)
      requires Valid()
      ensures j == if id in Contents().jobs then Some(Contents().jobs[id]) else None
      ensures j.Some? ==> j.value.id == id && id in rows && rows[id] == RowOf(codec, j.value).(data := rows[id].data)
    {
      TablesFacts(codec, rows, hosts);
      if id !in rows {
        return None;
      }
      return codec.parseJob(rows[id].data);
    }

    /** Rewrites the row of a stored job; the creation column stays as it was. */
    method Update(j: Job)
      requires Valid() && j.id in rows && rows[j.id].createdAt == codec.instant(j.createdAt)
      modifies this`rows
      ensures Valid() && Contents() == old(Contents()).(jobs := old(Contents()).jobs[j.id := j])
    {
      RowWritten(codec, rows, hosts, j);
      rows := rows[j.id := rows[j.id].(status := j.status, data := codec.job(j))];
    }

    method Create(given: Job) returns (r: Response)
      requires Valid()
      modifies this
      ensures Valid() && (Contents(), r) == CreateIn(supply, old(Contents()), given)
    {
      hide Lossless, TablesOk, JobsOf;
      TablesFacts(codec, rows, hosts);
      var job := given;
      if job.id == "" {
        job := job.(id := supply.names(minted));
        minted := minted + 1;
      }
      if job.id in rows {
        return Fails(Exists);
      }
      var now := Now();
      job := job.(status := PENDING, createdAt := now, updatedAt := now);
      RowWritten(codec, rows, hosts, job);
      rows := rows[job.id := JobRow(job.status, codec.instant(job.createdAt), codec.job(job))];
      return TheJob(job);
    }

    method Get(id: string) returns (r: Response)
      requires Valid()
      ensures r == Apply(supply, Contents(), Queue.Get(id)).1
    {
      var job := Load(id);
      if job.None? {
        return Absent;
      }
      return TheJob(job.value);
    }

    /** Each pending job once, found by the status column. */
    method Pending() returns (out: seq<Job>)
      requires Valid()
      ensures (set j | j in out) == PendingJobs(Contents().jobs)
      ensures forall i, j :: 0 <= i < j < |out| ==> out[i].id != out[j].id
    {
      hide Lossless, TablesOk;
      TablesFacts(codec, rows, hosts);
      out := [];
      var left := rows.Keys;
      while left != {}
        invariant left <= rows.Keys
        invariant forall j :: j in out <==>
          exists id :: id in rows.Keys - left && rows[id].status == PENDING && JobsOf(codec, rows)[id] == j
        invariant forall k :: 0 <= k < |out| ==> out[k].id in rows.Keys - left
        invariant forall i, j :: 0 <= i < j < |out| ==> out[i].id != out[j].id
        decreases left
      {
        var id :| id in left;
        left := left - {id};
        var row := rows[id];
        if row.status == PENDING {
          var j := codec.parseJob(row.data);
          if j.Some? {
            out := out + [j.value];
          }
        }
      }
      assert rows.Keys - left == rows.Keys;
    }

    method Claim(id: string, runner: string) returns (r: Response)
      requires Valid()
      modifies this
      ensures Valid() && (Contents(), r) == ClaimIn(supply, old(Contents()), id, runner)
    {
      hide Lossless, TablesOk, JobsOf, RunnersOf, Entries;
      var found := Load(id);
      if found.None? {
        return Fails(NotFound);
      }
      var job := found.value;
      if job.status != PENDING {
        return Fails(AlreadyClaimed);
      }
      job := job.(status := CLAIMED, claimedBy := runner);
      var now := Now();
      job := job.(updatedAt := now);
      Update(job);
      return TheJob(job);
    }

    method AppendEvent(id: string, given: Event) returns (r: Response)
      requires Valid()
      modifies this
      ensures Valid() && (Contents(), r) == AppendIn(supply, old(Contents()), id, given)
    {
      hide Lossless, TablesOk, JobsOf, RunnersOf, Entries;
      var found := Load(id);
      if found.None? {
        return Fails(NotFound);
      }
      var job, event := found.value, given;
      if event.at == 0 {
        var at := Now();
        event := event.(at := at);
      }
      job := job.(events := job.events + [event]);
      if event.kind == "running" && job.status == CLAIMED {
        job := job.(status := RUNNING);
      }
      var now := Now();
      job := job.(updatedAt := now);
      Update(job);
      return Ok;
    }

    method SetResult(id: string, result: string) returns (r: Response)
      requires Valid()
      modifies this
      ensures Valid() && (Contents(), r) == SetResultIn(supply, old(Contents()), id, result)
    {
      hide Lossless, TablesOk, JobsOf, RunnersOf, Entries;
      var found := Load(id);
      if found.None? {
        return Fails(NotFound);
      }
      var now := Now();
      Update(found.value.(result := result, updatedAt := now));
      return Ok;
    }

    method Complete(id: string, status: string, message: string) returns (r: Response)
      requires Valid()
      modifies this
      ensures Valid() && (Contents(), r) == CompleteIn(supply, old(Contents()), id, status, message)
    {
      hide Lossless, TablesOk, JobsOf, RunnersOf, Entries;
      if status != DONE && status != FAILED {
        return Fails(InvalidStatus);
      }
      var found := Load(id);
      if found.None? {
        return Fails(NotFound);
      }
      var now := Now();
      Update(found.value.(status := status, errorMessage := message, updatedAt := now));
      return Ok;
    }

    method Heartbeat(given: RunnerInfo)
      requires Valid()
      modifies this
      ensures Valid() && Contents() == HeartbeatIn(supply, old(Contents()), given)
    {
      hide Lossless, TablesOk, RunnersOf;
      var info := given;
      if info.lastSeen == 0 {
        var now := Now();
        info := info.(lastSeen := now);
      }
      HostWritten(codec, rows, hosts, info);
      hosts := hosts[info.hostname := codec.runner(info)];
    }

    method Runners() returns (out: seq<RunnerInfo>)
      requires Valid()
      ensures out == InOrder(Contents().runners, SortedKeys(Contents().runners.Keys))
    {
      hide Lossless, TablesOk, JobsOf, RunnersOf, SortedKeys;
      TablesFacts(codec, rows, hosts);
      var names := SortNames(hosts.Keys);
      out := [];
      for i := 0 to |names|
        invariant |out| == i && forall k :: 0 <= k < i ==> out[k] == RunnersOf(codec, hosts)[names[k]]
      {
        assert names[i] in names;
        RunnerRead(codec, rows, hosts, names[i]);
        var r := codec.parseRunner(hosts[names[i]]);
        if r.Some? {
          out := out + [r.value];
        }
      }
    }

    method Audit(given: AuditEntry)
      requires Valid()
      modifies this
      ensures Valid() && Contents() == AuditIn(supply, old(Contents()), given)
    {
      var entry := given;
      if entry.at == 0 {
        var now := Now();
        entry := entry.(at := now);
      }
      var row := AuditRow(codec.instant(entry.at), entry.tenant, entry.action, entry.jobId, entry.actor, entry.detail);
      assert EntryOf(codec, row) == entry;
      log := log + [row];
      assert Contents().audit == old(Contents()).audit + [entry];
    }

    /** The newest rows first, as many as asked for, then turned round in place. */
    method AuditLog(limit: int) returns (out: seq<AuditEntry>)
      requires Valid()
      ensures out == TailEntries(Contents().audit, limit)
    {
      var n := if 0 < limit < |log| then limit else |log|;
      var all := Entries(codec, log);
      var desc := new AuditEntry[n](i requires 0 <= i < n => all[|all| - 1 - i]);
      TurnRound(desc);
      return desc[..];
    }

    method Do(op: Op) returns (r: Response)
      requires Valid()
      modifies this
      ensures Valid() && (Contents(), r) == Apply(supply, old(Contents()), op)
    {
      hide Valid, TailEntries, PendingJobs;
      match op {
        case Create(job) =>
          r := Create(job);
        case Get(id) =>
          r := Get(id);
        case Pending =>
          var out := Pending();
          r := Jobs(set j | j in out);
        case Claim(id, runner) =>
          r := Claim(id, runner);
        case AppendEvent(id, event) =>
          r := AppendEvent(id, event);
        case SetResult(id, result) =>
          r := SetResult(id, result);
        case Complete(id, status, message) =>
          r := Complete(id, status, message);
        case Heartbeat(info) =>
          Heartbeat(info);
          r := Ok;
        case Runners =>
          var out := Runners();
          r := TheRunners(out);
        case Audit(entry) =>
          Audit(entry);
          r := Ok;
        case AuditLog(limit) =>
          var out := AuditLog(limit);
          r := Log(out);
      }
    }
  }

  method TurnRound(desc: array<AuditEntry>)
    modifies desc
    ensures forall k :: 0 <= k < desc.Length ==> desc[k] == old(desc[desc.Length - 1 - k])
  {
    var n := desc.Length;
    var i, j := 0, n - 1;
    while i < j
      invariant 0 <= i <= j + 1 && j == n - 1 - i
      invariant forall k :: 0 <= k < i ==> desc[k] == old(desc[n - 1 - k])
      invariant forall k :: j < k < n ==> desc[k] == old(desc[n - 1 - k])
      invariant forall k :: i <= k <= j ==> desc[k] == old(desc[k])
    {
      desc[i], desc[j] := desc[j], desc[i];
      i, j := i + 1, j - 1;
    }
  }

  // ----- Both, side by side -----

  /** Main result: the same operations on both stores, with the same clock and identifiers, give the
      same responses one by one and leave the same contents. */
  method Lockstep(m: Memory, s: SQLite, ops: seq<Op>) returns (a: seq<Response>, b: seq<Response>)
    requires m.Valid() && s.Valid() && m.supply == s.supply && m.Contents() == s.Contents()
    modifies m, m.jobs.Values, s
    ensures m.Valid() && s.Valid() && m.Contents() == s.Contents()
    ensures a == b == Responses(m.supply, old(m.Contents()), ops)
    ensures m.Contents() == States(m.supply, old(m.Contents()), ops)[|ops|]
  {
    hide Apply, Memory.Valid, SQLite.Valid, Memory.Contents, SQLite.Contents;
    a, b := [], [];
    ghost var start := m.Contents();
    for i := 0 to |ops|
      invariant m.Valid() && s.Valid() && m.Contents() == s.Contents() == States(m.supply, start, ops)[i]
      invariant a == b == Responses(m.supply, start, ops)[..i]
      invariant forall x :: x in m.jobs.Values ==> x in old(m.jobs.Values) || fresh(x)
    {
      StepOf(m.supply, start, ops, i);
      var x := m.Do(ops[i]);
      var y := s.Do(ops[i]);
      a, b := a + [x], b + [y];
    }
  }
}
