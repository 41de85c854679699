/** The leased job queue: one table of jobs, one of results, and the transactions that rewrite them. */
module JobQueue {
  import opened Common

  datatype State = Queued | Running | CancelRequested | Completed | Failed | Cancelled {
    predicate Active() { Running? || CancelRequested? }

    predicate Terminal() { Completed? || Failed? || Cancelled? }
  }

  datatype Phase = Validating | Replaying | Exporting | Verifying

  datatype FailureCode = ValidationFailed | InputUnavailable | Timeout | WorkerLost | ExecutionFailed | ArtifactInvalid

  const MAX_ATTEMPTS: nat := 2

  /** A row of `demo_jobs`; its position is its sequence number and its identity. Times are clock ticks. */
  datatype Job = Job(
    owner: string, key: string, fingerprint: string,
    state: State, phase: Option<Phase>,
    created: int, started: Option<int>, ended: Option<int>, heartbeat: Option<int>,
    attempt: nat, token: Option<nat>, expires: Option<int>,
    result: Option<nat>, failure: Option<FailureCode>, cancelAsked: Option<int>)

  /** A row of `demo_job_results`. */
  datatype ResultRow = ResultRow(job: nat, directory: nat)

  /** A file of a result; `evidence` stands for its kind, hash, type and size. */
  datatype Artifact = Artifact(id: string, path: string, evidence: nat)

  /** A row of `demo_job_artifacts`. */
  datatype ArtifactRow = ArtifactRow(artifact: Artifact, result: nat)

  /** What a worker reports about a published result: its id and files, and what its record says of them. */
  datatype PublishedResult = PublishedResult(
    id: string, directory: nat, files: seq<Artifact>, recordId: string, recordJob: nat, recordFiles: seq<string>)

  /** How recording a result ends: refused before the transaction, without the lease, rolled back, or done. */
  datatype Completion = Malformed | Lost | RolledBack | Done

  datatype Tables = Tables(jobs: seq<Job>, results: seq<ResultRow>)

  datatype Reply = Existing(job: nat) | Created(job: nat) | Conflict

  // --- the transactions, as functions on the tables ---

  function NewJob(owner: string, key: string, fingerprint: string, now: int): Job {
    Job(owner, key, fingerprint, Queued, None, now, None, None, None, 0, None, None, None, None, None)
  }

  /** The row that holds an owner's idempotency key. */
  function JobForKey(jobs: seq<Job>, owner: string, key: string): (r: Option<nat>)
    ensures r.Some? ==> r.value < |jobs| && jobs[r.value].owner == owner && jobs[r.value].key == key
    ensures r.None? ==> forall i :: 0 <= i < |jobs| ==> !(jobs[i].owner == owner && jobs[i].key == key)
  {
    if jobs == [] then None
    else
      var last := |jobs| - 1;
      if jobs[last].owner == owner && jobs[last].key == key then Some(last) else JobForKey(jobs[..last], owner, key)
  }

  function Answer(jobs: seq<Job>, row: nat, fingerprint: string): Reply
    requires row < |jobs|
  {
    if jobs[row].fingerprint == fingerprint then Existing(row) else Conflict
  }

  /** What one atomic get-or-insert on (owner, key) answers and leaves behind. */
  function GetOrInsert(jobs: seq<Job>, owner: string, key: string, fingerprint: string, now: int): (seq<Job>, Reply) {
    match JobForKey(jobs, owner, key)
    case Some(row) => (jobs, Answer(jobs, row, fingerprint))
    case None => (jobs + [NewJob(owner, key, fingerprint, now)], Created(|jobs|))
  }

  /** The oldest queued row. */
  function NextQueued(jobs: seq<Job>): (r: Option<nat>)
    ensures r.Some? ==>
      r.value < |jobs| && jobs[r.value].state.Queued?
      && forall i :: 0 <= i < r.value ==> !jobs[i].state.Queued?
    ensures r.None? ==> forall i :: 0 <= i < |jobs| ==> !jobs[i].state.Queued?
  {
    if jobs == [] then None
    else
      var front := NextQueued(jobs[..|jobs| - 1]);
      if front.Some? then front else if jobs[|jobs| - 1].state.Queued? then Some(|jobs| - 1) else None
  }

  function Claimed(job: Job, token: nat, lease: int, now: int): Job {
    job.(state := Running, phase := Some(Validating), started := Some(now), heartbeat := Some(now),
         attempt := job.attempt + 1, token := Some(token), expires := Some(now + lease))
  }

  /** The token still leases the row; with a time given, the lease must also not have run out. */
  predicate Leased(jobs: seq<Job>, id: nat, token: nat, now: Option<int>) {
    && id < |jobs| && jobs[id].token == Some(token) && jobs[id].state.Active()
    && (now.Some? && jobs[id].expires.Some? ==> jobs[id].expires.value >= now.value)
  }

  function Beaten(job: Job, phase: Option<Phase>, lease: int, now: int): Job {
    job.(heartbeat := Some(now), expires := Some(now + lease), phase := if phase.Some? then phase else job.phase)
  }

  /** The row leaves the active states and gives up its lease. */
  function Ended(job: Job, state: State, now: int): Job {
    job.(state := state, ended := Some(now), token := None, expires := None)
  }

  function CancelAsked(job: Job, now: int): Job {
    match job.state
    case Queued => job.(state := Cancelled, ended := Some(now), cancelAsked := Some(now))
    case Running => job.(state := CancelRequested, cancelAsked := Some(now))
    case _ => job
  }

  predicate Expired(job: Job, now: int) {
    job.state.Active() && job.expires.Some? && job.expires.value < now
  }

  /** What recovery makes of one row. */
  function Recovered(job: Job, now: int): Job {
    if !Expired(job, now) then job
    else if job.state.CancelRequested? then Ended(job, Cancelled, now)
    else if job.attempt < MAX_ATTEMPTS then
      job.(state := Queued, phase := None, started := None, heartbeat := None, token := None, expires := None)
    else Ended(job, Failed, now).(failure := Some(WorkerLost))
  }

  function RecoveredAll(jobs: seq<Job>, now: int): (r: seq<Job>)
    ensures |r| == |jobs| && forall i :: 0 <= i < |jobs| ==> r[i] == Recovered(jobs[i], now)
  {
    seq(|jobs|, i requires 0 <= i < |jobs| => Recovered(jobs[i], now))
  }

  function CompletedTables(t: Tables, id: nat, directory: nat, now: int): Tables
    requires id < |t.jobs|
  {
    Tables(t.jobs[id := Ended(t.jobs[id], Completed, now).(result := Some(|t.results|))],
           t.results + [ResultRow(id, directory)])
  }

  function FileIds(files: seq<Artifact>): (r: seq<string>)
    ensures |r| == |files| && forall i :: 0 <= i < |r| ==> r[i] == files[i].id
  {
    seq(|files|, i requires 0 <= i < |files| => files[i].id)
  }

  /** The record names the result, the job and the files, in order. */
  predicate RecordMatches(p: PublishedResult, id: nat) {
    p.recordId == p.id && p.recordJob == id && p.recordFiles == FileIds(p.files)
  }

  /** The ids are new, and no two of the first `n` files share an id or a path. */
  predicate Insertable(rows: seq<ArtifactRow>, files: seq<Artifact>, n: nat)
    requires n <= |files|
  {
    && (forall i, k :: 0 <= i < n && 0 <= k < |rows| ==> files[i].id != rows[k].artifact.id)
    && (forall i, k :: 0 <= i < k < n ==> files[i].id != files[k].id && files[i].path != files[k].path)
  }

  function ArtifactRows(files: seq<Artifact>, result: nat): (r: seq<ArtifactRow>)
    ensures |r| == |files| && forall i :: 0 <= i < |r| ==> r[i] == ArtifactRow(files[i], result)
  {
    seq(|files|, i requires 0 <= i < |files| => ArtifactRow(files[i], result))
  }

  // --- listing ---

  /** The owner's rows below `before`, newest first. */
  function Newest(jobs: seq<Job>, owner: string, before: nat): seq<nat>
    requires before <= |jobs|
  {
    if before == 0 then []
    else (if jobs[before - 1].owner == owner then [before - 1] else []) + Newest(jobs, owner, before - 1)
  }

  /** The listing holds exactly the owner's rows, each once, newest first. */
  lemma {:induction false} NewestIsExact(jobs: seq<Job>, owner: string, before: nat)
    requires before <= |jobs|
    ensures var r := Newest(jobs, owner, before);
      && (forall k :: 0 <= k < |r| ==> r[k] < before && jobs[r[k]].owner == owner)
      && (forall k, l :: 0 <= k < l < |r| ==> r[k] > r[l])
      && (forall i :: 0 <= i < before && jobs[i].owner == owner ==> i in r)
  {
    if before == 0 {
    } else {
      NewestIsExact(jobs, owner, before - 1);
    }
  }

  /** One page of a listing: the rows and the cursor to continue from. */
  datatype Page = Page(rows: seq<nat>, next: Option<nat>)

  function PageOf(jobs: seq<Job>, owner: string, before: nat, size: nat): (p: Page)
    requires before <= |jobs| && size > 0
  {
    var rows := Newest(jobs, owner, before);
    if |rows| > size then Page(rows[..size], Some(rows[size - 1])) else Page(rows, None)
  }

  /** The ids are the same, or both rows are of one result and the paths are. */
  predicate Violates(row: ArtifactRow, file: Artifact, sameResult: bool) {
    row.artifact.id == file.id || (sameResult && row.artifact.path == file.path)
  }

  predicate Distinct(a: ArtifactRow, b: ArtifactRow) {
    a.artifact.id != b.artifact.id && (a.result == b.result ==> a.artifact.path != b.artifact.path)
  }

  lemma RowsStayDistinct(rows: seq<ArtifactRow>, files: seq<Artifact>, result: nat)
    requires forall i, k :: 0 <= i < k < |rows| ==> Distinct(rows[i], rows[k])
    requires forall i :: 0 <= i < |rows| ==> rows[i].result < result
    requires Insertable(rows, files, |files|)
    ensures var more := rows + ArtifactRows(files, result);
      && (forall i, k :: 0 <= i < k < |more| ==> Distinct(more[i], more[k]))
      && forall i :: 0 <= i < |more| ==> more[i].result <= result
  {
    var more := rows + ArtifactRows(files, result);
    forall i, k | 0 <= i < k < |more| ensures Distinct(more[i], more[k]) {
      if k < |rows| { assert Distinct(rows[i], rows[k]); }
    }
  }

  // --- the store ---

  /** The database of one queue. Tokens are drawn fresh; the clock never runs backwards. */
  class JobStore {
    var tables: Tables
    /** The ids of the result rows, and the artifact rows. */
    var resultIds: seq<string>
    var artifacts: seq<ArtifactRow>
    var now: int
    var nextToken: nat

    constructor (start: int)
      ensures tables == Tables([], []) && now == start && nextToken == 0 && resultIds == [] && artifacts == []
      ensures Stored()
    {
      tables, now, nextToken := Tables([], []), start, 0;
      resultIds, artifacts := [], [];
    }

    /** Result ids and artifact ids are unique, and an artifact names its result by a path of its own. */
    ghost predicate Stored()
      reads this`tables, this`resultIds, this`artifacts
    {
      && |resultIds| == |tables.results| && (forall i, k :: 0 <= i < k < |resultIds| ==> resultIds[i] != resultIds[k])
      && (forall i :: 0 <= i < |artifacts| ==> artifacts[i].result < |tables.results|)
      && forall i, k :: 0 <= i < k < |artifacts| ==> Distinct(artifacts[i], artifacts[k])
    }

    /** Read the clock inside a transaction. */
    method Now() returns (time: int)
      modifies this`now
      ensures time == now >= old(now)
    {
      var passed: int := *;
      if passed > 0 { now := now + passed; }
      time := now;
    }

    method FindKey(owner: string, key: string) returns (row: Option<nat>)
      ensures row == JobForKey(tables.jobs, owner, key)
    {
      var jobs := tables.jobs;
      row := None;
      for i := 0 to |jobs|
        invariant row == JobForKey(jobs[..i], owner, key)
      {
        assert jobs[..i + 1][..i] == jobs[..i];
        if jobs[i].owner == owner && jobs[i].key == key { row := Some(i); }
      }
      assert jobs[..|jobs|] == jobs;
    }

    /** The unlocked look at the key: an answer means no transaction is needed. */
    method PreCheck(owner: string, key: string, fingerprint: string) returns (reply: Option<Reply>)
      ensures reply.None? <==> JobForKey(tables.jobs, owner, key).None?
      ensures reply.Some? ==> (tables.jobs, reply.value) == GetOrInsert(tables.jobs, owner, key, fingerprint, now)
    {
      var row := FindKey(owner, key);
      if row.None? { return None; }
      reply := Some(if tables.jobs[row.value].fingerprint == fingerprint then Existing(row.value) else Conflict);
    }

    /** The locked part of submit: the key is looked up again before the row is inserted. */
    method LockedSubmit(owner: string, key: string, fingerprint: string) returns (reply: Reply)
      modifies this`tables, this`now
      ensures now >= old(now) && tables.results == old(tables.results)
      ensures (tables.jobs, reply) == GetOrInsert(old(tables.jobs), owner, key, fingerprint, now)
    {
      var created := Now();
      var row := FindKey(owner, key);
      if row.Some? {
        return if tables.jobs[row.value].fingerprint == fingerprint then Existing(row.value) else Conflict;
      }
      reply := Created(|tables.jobs|);
      var queued := Job(owner, key, fingerprint, Queued, None, created, None, None, None, 0, None, None, None, None,
                        None);
      tables := tables.(jobs := tables.jobs + [queued]);
    }

    /** Claim the oldest queued job; the reply is its row and the fresh token. */
    method ClaimNext(lease: int) returns (claimed: Option<(nat, nat)>)
      requires lease > 0
      modifies this
      ensures now >= old(now) && tables.results == old(tables.results) && nextToken == old(nextToken) + 1
      ensures match NextQueued(old(tables.jobs))
        case None => claimed.None? && tables == old(tables)
        case Some(id) =>
          && claimed == Some((id, old(nextToken)))
          && tables.jobs == old(tables.jobs)[id := Claimed(old(tables.jobs)[id], old(nextToken), lease, now)]
      ensures claimed.Some? ==>
        var row := tables.jobs[claimed.value.0];
        && row.state.Running? && row.token == Some(claimed.value.1) && row.expires == Some(now + lease)
        && row.attempt == old(tables.jobs)[claimed.value.0].attempt + 1
    {
      var token := nextToken;
      nextToken := nextToken + 1;
      var started := Now();
      var jobs := tables.jobs;
      for i := 0 to |jobs|
        invariant forall k :: 0 <= k < i ==> !jobs[k].state.Queued?
        invariant tables == old(tables) && now == started
      {
        if jobs[i].state.Queued? {
          OldestIsNext(jobs, i);
          var row := jobs[i].(state := Running, phase := Some(Validating), started := Some(started),
                              heartbeat := Some(started), attempt := jobs[i].attempt + 1, token := Some(token),
                              expires := Some(started + lease));
          tables := tables.(jobs := jobs[i := row]);
          return Some((i, token));
        }
      }
      claimed := None;
    }

    /** The row the token still leases: active, with this token, and with a time given not run out. */
    method LeasedRow(id: nat, token: nat, time: Option<int>) returns (row: Option<Job>)
      ensures row.Some? <==> Leased(tables.jobs, id, token, time)
      ensures row.Some? ==> row.value == tables.jobs[id]
    {
      if id >= |tables.jobs| || tables.jobs[id].token != Some(token) { return None; }
      var found := tables.jobs[id];
      var expired := time.Some? && found.expires.Some? && found.expires.value < time.value;
      if expired || (found.state != Running && found.state != CancelRequested) { return None; }
      row := Some(found);
    }

    /** Extend a lease; the reply is the state the worker must react to, None that the lease is lost. */
    method Heartbeat(id: nat, token: nat, lease: int, phase: Option<Phase>) returns (state: Option<State>)
      requires lease > 0
      modifies this`tables, this`now
      ensures now >= old(now) && tables.results == old(tables.results)
      ensures state.Some? <==> Leased(old(tables.jobs), id, token, Some(now))
      ensures state.Some? ==> state.value == old(tables.jobs)[id].state
      ensures tables.jobs ==
        if state.Some? then old(tables.jobs)[id := Beaten(old(tables.jobs)[id], phase, lease, now)]
        else old(tables.jobs)
      ensures state.Some? ==>
        var row := tables.jobs[id];
        row.expires == Some(now + lease) && row.heartbeat == Some(now) && row.token == Some(token)
    {
      var time := Now();
      var leased := LeasedRow(id, token, Some(time));
      if leased.None? { return None; }
      var row := leased.value.(heartbeat := Some(time), expires := Some(time + lease));
      if phase.Some? { row := row.(phase := phase); }
      tables := tables.(jobs := tables.jobs[id := row]);
      state := Some(row.state);
    }

    /** Record a published result with its files in one transaction. The token alone decides: a lapsed lease that
        recovery has not taken still completes. A record that does not match is refused before the transaction, and
        an id or path used twice rolls everything back. */
    method Complete(id: nat, token: nat, engineRun: string, published: PublishedResult) returns (outcome: Completion)
      modifies this`tables, this`resultIds, this`artifacts, this`now
      ensures now >= old(now)
      ensures outcome.Malformed? <==> engineRun == "" || !RecordMatches(published, id)
      ensures outcome.Lost? <==> !outcome.Malformed? && !Leased(old(tables.jobs), id, token, None)
      ensures outcome.RolledBack? <==>
        && !outcome.Malformed? && !outcome.Lost?
        && (published.id in old(resultIds) || !Insertable(old(artifacts), published.files, |published.files|))
      ensures tables ==
        if outcome.Done? then CompletedTables(old(tables), id, published.directory, now) else old(tables)
      ensures resultIds == old(resultIds) + if outcome.Done? then [published.id] else []
      ensures artifacts ==
        old(artifacts) + if outcome.Done? then ArtifactRows(published.files, |old(tables.results)|) else []
      ensures old(Stored()) ==> Stored()
    {
      if engineRun == "" || published.recordId != published.id || published.recordJob != id
        || published.recordFiles != FileIds(published.files) {
        return Malformed;
      }
      var time := Now();
      var leased := LeasedRow(id, token, None);
      if leased.None? { return Lost; }
      if published.id in resultIds { return RolledBack; }
      var rows, ok := InsertArtifacts(published.files, |tables.results|);
      if !ok { return RolledBack; }
      var row := leased.value;
      var results := tables.results + [ResultRow(id, published.directory)];
      var done := row.(state := Completed, ended := Some(time), result := Some(|tables.results|), token := None,
                       expires := None);
      tables, resultIds, artifacts := Tables(tables.jobs[id := done], results), resultIds + [published.id], rows;
      outcome := Done;
      if old(Stored()) { RowsStayDistinct(old(artifacts), published.files, |old(tables.results)|); }
    }

    /** The artifact table with a row for every file; false is a violated unique constraint. */
    method InsertArtifacts(files: seq<Artifact>, result: nat) returns (rows: seq<ArtifactRow>, ok: bool)
      ensures ok <==> Insertable(artifacts, files, |files|)
      ensures ok ==> rows == artifacts + ArtifactRows(files, result)
    {
      rows, ok := artifacts, true;
      for i := 0 to |files|
        invariant Insertable(artifacts, files, i) && |rows| == |artifacts| + i && rows[..|artifacts|] == artifacts
        invariant forall k :: 0 <= k < i ==> rows[|artifacts| + k] == ArtifactRow(files[k], result)
      {
        if exists k :: 0 <= k < |rows| && Violates(rows[k], files[i], |artifacts| <= k) {
          var k :| 0 <= k < |rows| && Violates(rows[k], files[i], |artifacts| <= k);
          if k < |artifacts| {
            assert rows[..|artifacts|][k] == artifacts[k];
          } else {
            assert rows[|artifacts| + (k - |artifacts|)] == ArtifactRow(files[k - |artifacts|], result);
          }
          return rows, false;
        }
        assert forall k :: 0 <= k < |artifacts| ==> rows[..|artifacts|][k] == artifacts[k];
        forall k | 0 <= k < i ensures files[k].id != files[i].id && files[k].path != files[i].path {
          assert !Violates(rows[|artifacts| + k], files[i], true);
        }
        rows := rows + [ArtifactRow(files[i], result)];
      }
    }

    method Fail(id: nat, token: nat, code: FailureCode) returns (ok: bool)
      modifies this`tables, this`now
      ensures now >= old(now) && tables.results == old(tables.results)
      ensures ok <==> Leased(old(tables.jobs), id, token, Some(now))
      ensures tables.jobs ==
        if ok then old(tables.jobs)[id := Ended(old(tables.jobs)[id], Failed, now).(failure := Some(code))]
        else old(tables.jobs)
    {
      var time := Now();
      var leased := LeasedRow(id, token, Some(time));
      if leased.None? { return false; }
      var row := leased.value;
      tables := tables.(jobs := tables.jobs[id := row.(state := Failed, ended := Some(time), failure := Some(code),
                                                       token := None, expires := None)]);
      ok := true;
    }

    method ConfirmCancelled(id: nat, token: nat) returns (ok: bool)
      modifies this`tables, this`now
      ensures now >= old(now) && tables.results == old(tables.results)
      ensures ok <==> Leased(old(tables.jobs), id, token, Some(now)) && old(tables.jobs)[id].state.CancelRequested?
      ensures tables.jobs ==
        if ok then old(tables.jobs)[id := Ended(old(tables.jobs)[id], Cancelled, now)] else old(tables.jobs)
    {
      var time := Now();
      var leased := LeasedRow(id, token, Some(time));
      if leased.None? { return false; }
      var row := leased.value;
      if !row.state.CancelRequested? { return false; }
      tables := tables.(jobs :=
        tables.jobs[id := row.(state := Cancelled, ended := Some(time), token := None, expires := None)]);
      ok := true;
    }

    /** Cancel a queued job at once, ask the worker of a running one; false if the owner has no such job. */
    method RequestCancel(owner: string, id: nat) returns (known: bool)
      modifies this`tables, this`now
      ensures now >= old(now) && tables.results == old(tables.results)
      ensures known <==> id < |old(tables.jobs)| && old(tables.jobs)[id].owner == owner
      ensures tables.jobs ==
        if known then old(tables.jobs)[id := CancelAsked(old(tables.jobs)[id], now)] else old(tables.jobs)
    {
      var time := Now();
      if id >= |tables.jobs| || tables.jobs[id].owner != owner { return false; }
      var row := tables.jobs[id];
      if row.state.Queued? {
        tables := tables.(jobs :=
          tables.jobs[id := row.(state := Cancelled, ended := Some(time), cancelAsked := Some(time))]);
      } else if row.state.Running? {
        tables := tables.(jobs := tables.jobs[id := row.(state := CancelRequested, cancelAsked := Some(time))]);
      }
      known := true;
    }

    /** Take back every lapsed lease in one transaction: cancel, requeue once, or fail; the reply is what became of
        each. */
    method RecoverExpiredLeases() returns (outcomes: map<nat, State>)
      modifies this`tables, this`now
      ensures now >= old(now) && tables.results == old(tables.results)
      ensures tables.jobs == RecoveredAll(old(tables.jobs), now)
      ensures forall j: nat :: j in outcomes <==> j < |old(tables.jobs)| && Expired(old(tables.jobs)[j], now)
      ensures forall j: nat :: j in outcomes ==> j < |tables.jobs| && outcomes[j] == tables.jobs[j].state
    {
      var time := Now();
      var jobs := tables.jobs;
      outcomes := map[];
      for i := 0 to |jobs|
        invariant now == time && tables.results == old(tables.results) && |tables.jobs| == |jobs|
        invariant forall k :: 0 <= k < |jobs| ==> tables.jobs[k] == if k < i then Recovered(jobs[k], time) else jobs[k]
        invariant forall k: nat :: k in outcomes <==> k < i && Expired(jobs[k], time)
        invariant forall k: nat :: k in outcomes ==> outcomes[k] == tables.jobs[k].state
      {
        var row := jobs[i];
        if row.state.Active() && row.expires.Some? && row.expires.value < time {
          var next: Job;
          if row.state.CancelRequested? {
            next := row.(state := Cancelled, ended := Some(time), token := None, expires := None);
          } else if row.attempt < MAX_ATTEMPTS {
            next := row.(state := Queued, phase := None, started := None, heartbeat := None, token := None,
                         expires := None);
          } else {
            next := row.(state := Failed, ended := Some(time), failure := Some(WorkerLost), token := None,
                         expires := None);
          }
          tables := tables.(jobs := tables.jobs[i := next]);
          outcomes := outcomes[i := next.state];
        }
      }
    }

    /** One page, newest first; None is a cursor outside the owner's jobs. One extra row tells whether more follow. */
    method ListJobs(owner: string, size: nat, cursor: Option<nat>) returns (page: Option<Page>)
      requires size > 0
      ensures page.None? <==>
        cursor.Some? && (cursor.value >= |tables.jobs| || tables.jobs[cursor.value].owner != owner)
      ensures page.Some? ==>
        page.value == PageOf(tables.jobs, owner, if cursor.Some? then cursor.value else |tables.jobs|, size)
    {
      var jobs := tables.jobs;
      if cursor.Some? && (cursor.value >= |jobs| || jobs[cursor.value].owner != owner) { return None; }
      var read := ReadPage(jobs, owner, if cursor.Some? then cursor.value else |jobs|, size);
      page := Some(read);
    }
  }

  /** SELECT the owner's rows below `before`, newest first, up to one more than a page. */
  method SelectNewest(jobs: seq<Job>, owner: string, before: nat, limit: nat) returns (rows: seq<nat>)
    requires before <= |jobs|
    ensures |rows| == Min(limit, |Newest(jobs, owner, before)|)
    ensures rows == Newest(jobs, owner, before)[..|rows|]
  {
    var i := before;
    rows := [];
    while i > 0 && |rows| < limit
      invariant 0 <= i <= before && |rows| <= limit
      invariant Newest(jobs, owner, before) == rows + Newest(jobs, owner, i)
    {
      i := i - 1;
      if jobs[i].owner == owner { rows := rows + [i]; }
    }
  }

  method ReadPage(jobs: seq<Job>, owner: string, before: nat, size: nat) returns (page: Page)
    requires before <= |jobs| && size > 0
    ensures page == PageOf(jobs, owner, before, size)
  {
    var rows := SelectNewest(jobs, owner, before, size + 1);
    if |rows| > size {
      page := Page(rows[..size], Some(rows[size - 1]));
    } else {
      page := Page(rows, None);
    }
  }

  lemma {:induction false} OldestIsNext(jobs: seq<Job>, i: nat)
    requires i < |jobs| && jobs[i].state.Queued? && forall k :: 0 <= k < i ==> !jobs[k].state.Queued?
    ensures NextQueued(jobs) == Some(i)
  {}
}
