/** The queue in use: any number of clients, workers, recoveries and crashes interleave their transactions. */
module JobRuns {
  import opened Common
  import opened JobQueue

  /** What a worker process holds of its attempt; its index is the lease token it drew. */
  datatype Stage =
    | Working
    | Staging(dir: nat)     // files are being written
    | Publishing(dir: nat)  // renamed into place, not yet recorded
    | Losing(dir: nat)      // recording failed: the lease was taken back
    | Gone                  // returned or crashed

  datatype Attempt = Attempt(job: nat, stage: Stage)

  datatype DirState = Staged | Published | Deleted

  /** A submit call between its unlocked look and its transaction. */
  datatype Call = Call(owner: string, key: string, fingerprint: string)

  datatype Answered = Answered(call: Call, reply: Reply)

  datatype Sys = Sys(
    t: Tables, now: int, attempts: seq<Attempt>, dirs: seq<DirState>,
    calls: seq<Call>, replies: seq<Answered>)

  const START := Sys(Tables([], []), 0, [], [], [], [])

  datatype Action =
    | Tick(passed: nat)
    | PreCheck(call: Call)
    | LockedSubmit(pending: nat)
    | AskCancel(owner: string, job: nat)
    | Recover
    | Claim(lease: nat)
    | Beat(attempt: nat, lease: nat, phase: Option<Phase>)
    | GiveUp(attempt: nat, code: FailureCode)
    | Confirm(attempt: nat)
    | Stage(attempt: nat)
    | Unstage(attempt: nat)
    | Publish(attempt: nat)
    | Record(attempt: nat)
    | Discard(attempt: nat)
    | Die(attempt: nat)

  function Jobs(s: Sys): seq<Job> { s.t.jobs }

  function WithJobs(s: Sys, jobs: seq<Job>): Sys { s.(t := s.t.(jobs := jobs)) }

  function SetStage(s: Sys, a: nat, stage: Stage): Sys
    requires a < |s.attempts|
  {
    s.(attempts := s.attempts[a := s.attempts[a].(stage := stage)])
  }

  /** The worker's own order of calls; a crash can come anywhere. */
  predicate Enabled(s: Sys, a: Action) {
    match a
    case Tick(_) => true
    case PreCheck(_) => true
    case LockedSubmit(c) => c < |s.calls|
    case AskCancel(_, _) => true
    case Recover => true
    case Claim(_) => true
    case Beat(k, _, _) => k < |s.attempts| && s.attempts[k].stage.Working?
    case GiveUp(k, _) => k < |s.attempts| && (s.attempts[k].stage.Working? || s.attempts[k].stage.Publishing?)
    case Confirm(k) => k < |s.attempts| && s.attempts[k].stage.Working?
    case Stage(k) => k < |s.attempts| && s.attempts[k].stage.Working?
    case Unstage(k) => k < |s.attempts| && s.attempts[k].stage.Staging? && s.attempts[k].stage.dir < |s.dirs|
    case Publish(k) => k < |s.attempts| && s.attempts[k].stage.Staging? && s.attempts[k].stage.dir < |s.dirs|
    case Record(k) => k < |s.attempts| && s.attempts[k].stage.Publishing?
    case Discard(k) => k < |s.attempts| && s.attempts[k].stage.Losing? && s.attempts[k].stage.dir < |s.dirs|
    case Die(k) => k < |s.attempts|
  }

  function Do(s: Sys, a: Action): Sys
    requires Enabled(s, a)
  {
    match a
    case Tick(passed) => s.(now := s.now + passed)
    case PreCheck(call) =>
      (match JobForKey(Jobs(s), call.owner, call.key)
       case Some(row) => s.(replies := s.replies + [Answered(call, Answer(Jobs(s), row, call.fingerprint))])
       case None => s.(calls := s.calls + [call]))
    case LockedSubmit(c) =>
      var call := s.calls[c];
      var (jobs, reply) := GetOrInsert(Jobs(s), call.owner, call.key, call.fingerprint, s.now);
      WithJobs(s, jobs).(calls := s.calls[..c] + s.calls[c + 1..], replies := s.replies + [Answered(call, reply)])
    case AskCancel(owner, j) =>
      if j < |Jobs(s)| && Jobs(s)[j].owner == owner then WithJobs(s, Jobs(s)[j := CancelAsked(Jobs(s)[j], s.now)])
      else s
    case Recover => WithJobs(s, RecoveredAll(Jobs(s), s.now))
    case Claim(lease) =>
      (match NextQueued(Jobs(s))
       case None => s
       case Some(j) =>
         WithJobs(s, Jobs(s)[j := Claimed(Jobs(s)[j], |s.attempts|, lease, s.now)])
           .(attempts := s.attempts + [Attempt(j, Working)]))
    case Beat(k, lease, phase) =>
      var j := s.attempts[k].job;
      if Leased(Jobs(s), j, k, Some(s.now)) then WithJobs(s, Jobs(s)[j := Beaten(Jobs(s)[j], phase, lease, s.now)])
      else SetStage(s, k, Gone)
    case GiveUp(k, code) =>
      var j := s.attempts[k].job;
      var s' := SetStage(s, k, Gone);
      if Leased(Jobs(s), j, k, Some(s.now)) then
        WithJobs(s', Jobs(s)[j := Ended(Jobs(s)[j], Failed, s.now).(failure := Some(code))])
      else s'
    case Confirm(k) =>
      var j := s.attempts[k].job;
      var s' := SetStage(s, k, Gone);
      if Leased(Jobs(s), j, k, Some(s.now)) && Jobs(s)[j].state.CancelRequested? then
        WithJobs(s', Jobs(s)[j := Ended(Jobs(s)[j], Cancelled, s.now)])
      else s'
    case Stage(k) => SetStage(s, k, Staging(|s.dirs|)).(dirs := s.dirs + [Staged])
    case Unstage(k) => SetStage(s, k, Working).(dirs := s.dirs[s.attempts[k].stage.dir := Deleted])
    case Publish(k) =>
      SetStage(s, k, Publishing(s.attempts[k].stage.dir)).(dirs := s.dirs[s.attempts[k].stage.dir := Published])
    case Record(k) =>
      var j, dir := s.attempts[k].job, s.attempts[k].stage.dir;
      if Leased(Jobs(s), j, k, None) then SetStage(s, k, Gone).(t := CompletedTables(s.t, j, dir, s.now))
      else SetStage(s, k, Losing(dir))
    case Discard(k) => SetStage(s, k, Gone).(dirs := s.dirs[s.attempts[k].stage.dir := Deleted])
    case Die(k) => SetStage(s, k, Gone)
  }

  // --- runs ---

  predicate IsRun(run: seq<Action>)
    decreases |run|, 0
  {
    run == [] || (IsRun(run[..|run| - 1]) && Enabled(After(run[..|run| - 1]), run[|run| - 1]))
  }

  function After(run: seq<Action>): Sys
    requires IsRun(run)
    decreases |run|, 1
  {
    if run == [] then START else Do(After(run[..|run| - 1]), run[|run| - 1])
  }

  // --- the invariant ---

  /** Recorded times are in order and not in the future. */
  predicate TimesInOrder(job: Job, now: int) {
    && job.created <= now
    && (job.started.Some? ==> job.created <= job.started.value <= now)
    && (job.heartbeat.Some? ==> job.started.Some? && job.started.value <= job.heartbeat.value <= now)
    && (job.ended.Some? ==>
      job.created <= job.ended.value <= now
      && (job.started.Some? ==> job.started.value <= job.ended.value)
      && (job.heartbeat.Some? ==> job.heartbeat.value <= job.ended.value))
  }

  /** A lease exists exactly in active states, an end exactly in terminal ones, a result exactly when completed. */
  predicate LifecycleOk(job: Job) {
    && (job.token.Some? <==> job.state.Active()) && (job.expires.Some? <==> job.state.Active())
    && (job.ended.Some? <==> job.state.Terminal()) && (job.result.Some? <==> job.state.Completed?)
    && job.attempt <= MAX_ATTEMPTS
    && (job.state.Queued? ==> job.attempt < MAX_ATTEMPTS && job.started.None? && job.heartbeat.None?)
    && (job.state.Active() ==> job.attempt > 0 && job.started.Some? && job.heartbeat.Some?)
  }

  predicate JobOk(s: Sys, j: nat)
    requires j < |Jobs(s)|
  {
    var job := Jobs(s)[j];
    && TimesInOrder(job, s.now) && LifecycleOk(job)
    && (job.token.Some? ==> job.token.value < |s.attempts| && s.attempts[job.token.value].job == j)
    && (job.result.Some? ==> job.result.value < |s.t.results| && s.t.results[job.result.value].job == j)
    && job.attempt == ClaimsOf(s.attempts, j)
  }

  /** How often job `j` was claimed: every claim makes one attempt. */
  function ClaimsOf(attempts: seq<Attempt>, j: nat): nat {
    if attempts == [] then 0
    else ClaimsOf(attempts[..|attempts| - 1], j) + if attempts[|attempts| - 1].job == j then 1 else 0
  }

  predicate Holds(attempt: Attempt, dir: nat) {
    (attempt.stage.Staging? || attempt.stage.Publishing? || attempt.stage.Losing?) && attempt.stage.dir == dir
  }

  predicate HoldsAny(attempt: Attempt) {
    attempt.stage.Staging? || attempt.stage.Publishing? || attempt.stage.Losing?
  }

  predicate AttemptOk(s: Sys, k: nat)
    requires k < |s.attempts|
  {
    var a := s.attempts[k];
    && a.job < |Jobs(s)|
    && (HoldsAny(a) ==>
      a.stage.dir < |s.dirs| && s.dirs[a.stage.dir] == (if a.stage.Staging? then Staged else Published))
    && (a.stage.Losing? ==> Jobs(s)[a.job].token != Some(k))
  }

  /** A recorded directory is published, and no process still holds it. */
  predicate ResultOk(s: Sys, r: nat)
    requires r < |s.t.results|
  {
    var row := s.t.results[r];
    && row.job < |Jobs(s)| && Jobs(s)[row.job].result == Some(r)
    && row.directory < |s.dirs| && s.dirs[row.directory] == Published
    && forall k :: 0 <= k < |s.attempts| ==> !Holds(s.attempts[k], row.directory)
  }

  predicate KeysUnique(jobs: seq<Job>) {
    forall i, j :: 0 <= i < j < |jobs| ==> jobs[i].owner != jobs[j].owner || jobs[i].key != jobs[j].key
  }

  /** No two processes hold one directory. */
  predicate HoldersUnique(attempts: seq<Attempt>) {
    forall k, l :: 0 <= k < l < |attempts| && HoldsAny(attempts[k]) && HoldsAny(attempts[l]) ==>
      attempts[k].stage.dir != attempts[l].stage.dir
  }

  /** A reply given earlier is what an atomic get-or-insert answers now. */
  predicate ReplyStands(jobs: seq<Job>, answered: Answered) {
    var call, row := answered.call, JobForKey(jobs, answered.call.owner, answered.call.key);
    && row.Some?
    && match answered.reply
       case Conflict => jobs[row.value].fingerprint != call.fingerprint
       case Existing(j) => row.value == j && jobs[j].fingerprint == call.fingerprint
       case Created(j) => row.value == j && jobs[j].fingerprint == call.fingerprint
  }

  predicate CreatedOnce(replies: seq<Answered>) {
    forall k, l :: 0 <= k < l < |replies| && replies[k].reply.Created? && replies[l].reply.Created? ==>
      replies[k].reply != replies[l].reply
  }

  predicate JobsOk(s: Sys) { forall j :: 0 <= j < |Jobs(s)| ==> JobOk(s, j) }

  predicate AttemptsOk(s: Sys) {
    HoldersUnique(s.attempts) && forall k :: 0 <= k < |s.attempts| ==> AttemptOk(s, k)
  }

  predicate ResultsOk(s: Sys) { forall r :: 0 <= r < |s.t.results| ==> ResultOk(s, r) }

  predicate RepliesOk(s: Sys) {
    && KeysUnique(Jobs(s)) && CreatedOnce(s.replies)
    && forall q :: 0 <= q < |s.replies| ==> ReplyStands(Jobs(s), s.replies[q])
  }

  predicate Inv(s: Sys) {
    JobsOk(s) && AttemptsOk(s) && ResultsOk(s) && RepliesOk(s)
  }

  // --- what a step does to the rows ---

  /** The part of a row no transaction rewrites. */
  predicate SameRequest(job: Job, job': Job) {
    job'.owner == job.owner && job'.key == job.key && job'.fingerprint == job.fingerprint && job'.created == job.created
  }

  /** Rows are only ever appended and keep their request. */
  predicate Grows(jobs: seq<Job>, jobs': seq<Job>) {
    |jobs| <= |jobs'| && forall j :: 0 <= j < |jobs| ==> SameRequest(jobs[j], jobs'[j])
  }

  lemma StepGrows(s: Sys, a: Action)
    requires Enabled(s, a)
    ensures Grows(Jobs(s), Jobs(Do(s, a))) && |s.attempts| <= |Do(s, a).attempts| && s.now <= Do(s, a).now
    ensures forall k :: 0 <= k < |s.attempts| ==> Do(s, a).attempts[k].job == s.attempts[k].job
    ensures |s.t.results| <= |Do(s, a).t.results| && Do(s, a).t.results[..|s.t.results|] == s.t.results
  {
    RowsGrow(s, a);
    HistoryGrows(s, a);
  }

  lemma RowsGrow(s: Sys, a: Action)
    requires Enabled(s, a)
    ensures Grows(Jobs(s), Jobs(Do(s, a))) && s.now <= Do(s, a).now
  {}

  lemma HistoryGrows(s: Sys, a: Action)
    requires Enabled(s, a)
    ensures |s.attempts| <= |Do(s, a).attempts|
    ensures forall k :: 0 <= k < |s.attempts| ==> Do(s, a).attempts[k].job == s.attempts[k].job
    ensures |s.t.results| <= |Do(s, a).t.results| && Do(s, a).t.results[..|s.t.results|] == s.t.results
  {}

  /** What can happen to one row in one step. */
  datatype Move =
    | Stay | AskedToCancel | TakenBack
    | ClaimedFor(lease: int) | KeptAlive(phase: Option<Phase>, lease: int)
    | EndedFailed(code: FailureCode) | EndedCancelled | EndedCompleted

  function Moved(job: Job, move: Move, now: int, token: nat, result: nat): Job {
    match move
    case Stay => job
    case AskedToCancel => CancelAsked(job, now)
    case TakenBack => Recovered(job, now)
    case ClaimedFor(lease) => Claimed(job, token, lease, now)
    case KeptAlive(phase, lease) => Beaten(job, phase, lease, now)
    case EndedFailed(code) => Ended(job, Failed, now).(failure := Some(code))
    case EndedCancelled => Ended(job, Cancelled, now)
    case EndedCompleted => Ended(job, Completed, now).(result := Some(result))
  }

  /** Moves by a worker need an active row, a claim a queued one. */
  predicate Allowed(job: Job, move: Move) {
    match move
    case Stay => true
    case AskedToCancel => true
    case TakenBack => true
    case ClaimedFor(_) => job.state.Queued?
    case KeptAlive(_, _) => job.state.Active()
    case EndedFailed(_) => job.state.Active()
    case EndedCancelled => job.state.CancelRequested?
    case EndedCompleted => job.state.Active()
  }

  /** The move step `a` makes on row `j`; an attempt moves only the row its token still leases. */
  function MoveOf(s: Sys, a: Action, j: nat): Move
    requires Enabled(s, a) && j < |Jobs(s)|
  {
    match a
    case AskCancel(owner, i) => if i == j && Jobs(s)[j].owner == owner then AskedToCancel else Stay
    case Recover => TakenBack
    case Claim(lease) => if NextQueued(Jobs(s)) == Some(j) then ClaimedFor(lease) else Stay
    case Beat(k, lease, phase) =>
      if s.attempts[k].job == j && Leased(Jobs(s), j, k, Some(s.now)) then KeptAlive(phase, lease) else Stay
    case GiveUp(k, code) =>
      if s.attempts[k].job == j && Leased(Jobs(s), j, k, Some(s.now)) then EndedFailed(code) else Stay
    case Confirm(k) =>
      if s.attempts[k].job == j && Leased(Jobs(s), j, k, Some(s.now)) && Jobs(s)[j].state.CancelRequested?
      then EndedCancelled
      else Stay
    case Record(k) => if s.attempts[k].job == j && Leased(Jobs(s), j, k, None) then EndedCompleted else Stay
    case _ => Stay
  }

  lemma StepMoves(s: Sys, a: Action, j: nat)
    requires Enabled(s, a) && j < |Jobs(s)|
    ensures j < |Jobs(Do(s, a))| && Allowed(Jobs(s)[j], MoveOf(s, a, j))
    ensures Jobs(Do(s, a))[j] == Moved(Jobs(s)[j], MoveOf(s, a, j), s.now, |s.attempts|, |s.t.results|)
  {}

  lemma {:induction false} ClaimsKept(attempts: seq<Attempt>, attempts': seq<Attempt>, j: nat)
    requires |attempts| == |attempts'| && forall k :: 0 <= k < |attempts| ==> attempts'[k].job == attempts[k].job
    ensures ClaimsOf(attempts', j) == ClaimsOf(attempts, j)
  {
    if attempts == [] {
    } else {
      ClaimsKept(attempts[..|attempts| - 1], attempts'[..|attempts| - 1], j);
    }
  }

  lemma {:induction false} NoClaims(attempts: seq<Attempt>, j: nat)
    requires forall k :: 0 <= k < |attempts| ==> attempts[k].job != j
    ensures ClaimsOf(attempts, j) == 0
  {
    if attempts == [] {
    } else {
      NoClaims(attempts[..|attempts| - 1], j);
    }
  }

  lemma StepClaims(s: Sys, a: Action, j: nat)
    requires Enabled(s, a)
    ensures ClaimsOf(Do(s, a).attempts, j) ==
      ClaimsOf(s.attempts, j) + if a.Claim? && NextQueued(Jobs(s)) == Some(j) then 1 else 0
  {
    var s' := Do(s, a);
    if |s'.attempts| > |s.attempts| {
      assert s'.attempts[..|s.attempts|] == s.attempts;
    } else {
      ClaimsKept(s.attempts, s'.attempts, j);
    }
  }

  lemma MoveKeepsRow(job: Job, move: Move, now: int, token: nat, result: nat)
    requires Allowed(job, move) && TimesInOrder(job, now) && LifecycleOk(job)
    ensures TimesInOrder(Moved(job, move, now, token, result), now)
    ensures LifecycleOk(Moved(job, move, now, token, result))
  {}

  lemma JobKept(s: Sys, a: Action, j: nat)
    requires Enabled(s, a) && j < |Jobs(s)| && JobOk(s, j)
    ensures JobOk(Do(s, a), j)
  {
    StepClaims(s, a, j);
    StepMoves(s, a, j);
    StepGrows(s, a);
    MoveKeepsRow(Jobs(s)[j], MoveOf(s, a, j), s.now, |s.attempts|, |s.t.results|);
    JobLinksKept(s, a, j);
  }

  lemma JobLinksKept(s: Sys, a: Action, j: nat)
    requires Enabled(s, a) && j < |Jobs(s)| && JobOk(s, j)
    ensures var s' := Do(s, a);
      j < |Jobs(s')| && var job' := Jobs(s')[j];
      && (job'.token.Some? ==> job'.token.value < |s'.attempts| && s'.attempts[job'.token.value].job == j)
      && (job'.result.Some? ==> job'.result.value < |s'.t.results| && s'.t.results[job'.result.value].job == j)
  {
    StepMoves(s, a, j);
    StepGrows(s, a);
  }

  lemma NewJobOk(s: Sys, a: Action)
    requires Enabled(s, a) && AttemptsOk(s) && |Jobs(Do(s, a))| > |Jobs(s)|
    ensures |Jobs(Do(s, a))| == |Jobs(s)| + 1 && JobOk(Do(s, a), |Jobs(s)|)
  {
    StepClaims(s, a, |Jobs(s)|);
    forall k | 0 <= k < |s.attempts| ensures s.attempts[k].job != |Jobs(s)| { assert AttemptOk(s, k); }
    NoClaims(s.attempts, |Jobs(s)|);
  }

  lemma AttemptKept(s: Sys, a: Action, k: nat)
    requires Enabled(s, a) && JobsOk(s) && AttemptsOk(s) && k < |s.attempts|
    ensures AttemptOk(Do(s, a), k)
  {
    assert AttemptOk(s, k) && JobOk(s, s.attempts[k].job);
    StepMoves(s, a, s.attempts[k].job);
    StepKeepsDirectory(s, a, k);
  }

  lemma StepKeepsDirectory(s: Sys, a: Action, k: nat)
    requires Enabled(s, a) && AttemptsOk(s) && k < |s.attempts|
    ensures var s' := Do(s, a);
      var a' := s'.attempts[k];
      HoldsAny(a') ==>
        a'.stage.dir < |s'.dirs| && s'.dirs[a'.stage.dir] == if a'.stage.Staging? then Staged else Published
  {
    assert AttemptOk(s, k);
  }

  lemma AttemptsKept(s: Sys, a: Action)
    requires Enabled(s, a) && JobsOk(s) && AttemptsOk(s)
    ensures AttemptsOk(Do(s, a))
  {
    var s' := Do(s, a);
    forall k | 0 <= k < |s'.attempts| ensures AttemptOk(s', k) {
      if k < |s.attempts| { AttemptKept(s, a, k); }
    }
    HoldersKept(s, a);
  }

  lemma HoldersKept(s: Sys, a: Action)
    requires Enabled(s, a) && AttemptsOk(s)
    ensures HoldersUnique(Do(s, a).attempts)
  {
    var s' := Do(s, a);
    forall k, l | 0 <= k < l < |s'.attempts| && HoldsAny(s'.attempts[k]) && HoldsAny(s'.attempts[l])
      ensures s'.attempts[k].stage.dir != s'.attempts[l].stage.dir {
      if l < |s.attempts| { assert AttemptOk(s, k) && AttemptOk(s, l); }
    }
  }

  lemma ResultKept(s: Sys, a: Action, r: nat)
    requires Enabled(s, a) && JobsOk(s) && AttemptsOk(s) && r < |s.t.results| && ResultOk(s, r)
    ensures r < |Do(s, a).t.results| && ResultOk(Do(s, a), r)
  {
    assert JobOk(s, s.t.results[r].job);
  }

  /** Recording moves the directory from the process that published it to the result row. */
  lemma NewResultOk(s: Sys, a: Action)
    requires Enabled(s, a) && JobsOk(s) && AttemptsOk(s) && |Do(s, a).t.results| > |s.t.results|
    ensures |Do(s, a).t.results| == |s.t.results| + 1 && ResultOk(Do(s, a), |s.t.results|)
  {
    assert AttemptOk(s, a.attempt);
  }

  lemma ResultsKept(s: Sys, a: Action)
    requires Enabled(s, a) && JobsOk(s) && AttemptsOk(s) && ResultsOk(s)
    ensures ResultsOk(Do(s, a))
  {
    var s' := Do(s, a);
    forall r | 0 <= r < |s'.t.results| ensures ResultOk(s', r) {
      if r < |s.t.results| { ResultKept(s, a, r); } else { NewResultOk(s, a); }
    }
  }

  // --- replies ---

  lemma {:induction false} KeyFound(jobs: seq<Job>, row: nat)
    requires KeysUnique(jobs) && row < |jobs|
    ensures JobForKey(jobs, jobs[row].owner, jobs[row].key) == Some(row)
  {}

  lemma ReplyStillStands(jobs: seq<Job>, jobs': seq<Job>, answered: Answered)
    requires Grows(jobs, jobs') && KeysUnique(jobs') && ReplyStands(jobs, answered)
    ensures ReplyStands(jobs', answered)
  {
    var row := JobForKey(jobs, answered.call.owner, answered.call.key).value;
    assert SameRequest(jobs[row], jobs'[row]);
    KeyFound(jobs', row);
  }

  lemma StepKeysUnique(s: Sys, a: Action)
    requires Enabled(s, a) && KeysUnique(Jobs(s))
    ensures KeysUnique(Jobs(Do(s, a)))
  {
    StepGrows(s, a);
    var jobs, jobs' := Jobs(s), Jobs(Do(s, a));
    forall i, j | 0 <= i < j < |jobs'| ensures jobs'[i].owner != jobs'[j].owner || jobs'[i].key != jobs'[j].key {
      assert SameRequest(jobs[i], jobs'[i]);
      if j < |jobs| { assert SameRequest(jobs[j], jobs'[j]); }
    }
  }

  lemma RepliesKept(s: Sys, a: Action)
    requires Enabled(s, a) && RepliesOk(s)
    ensures RepliesOk(Do(s, a))
  {
    var s' := Do(s, a);
    StepGrows(s, a);
    StepKeysUnique(s, a);
    assert s'.replies[..|s.replies|] == s.replies;
    forall q | 0 <= q < |s'.replies| ensures ReplyStands(Jobs(s'), s'.replies[q]) {
      if q < |s.replies| { ReplyStillStands(Jobs(s), Jobs(s'), s.replies[q]); } else { NewReplyStands(s, a); }
    }
    forall k, l | 0 <= k < l < |s'.replies| && s'.replies[k].reply.Created? && s'.replies[l].reply.Created?
      ensures s'.replies[k].reply != s'.replies[l].reply {
      if l == |s.replies| { assert ReplyStands(Jobs(s), s.replies[k]); }
    }
  }

  lemma NewReplyStands(s: Sys, a: Action)
    requires Enabled(s, a) && KeysUnique(Jobs(Do(s, a))) && |Do(s, a).replies| > |s.replies|
    ensures |Do(s, a).replies| == |s.replies| + 1 && ReplyStands(Jobs(Do(s, a)), Do(s, a).replies[|s.replies|])
    ensures Do(s, a).replies[|s.replies|].reply.Created? ==> Do(s, a).replies[|s.replies|].reply == Created(|Jobs(s)|)
  {
    if a.LockedSubmit? && |Jobs(Do(s, a))| > |Jobs(s)| { KeyFound(Jobs(Do(s, a)), |Jobs(s)|); }
  }

  lemma StepKeepsInv(s: Sys, a: Action)
    requires Enabled(s, a) && Inv(s)
    ensures Inv(Do(s, a))
  {
    var s' := Do(s, a);
    forall j | 0 <= j < |Jobs(s')| ensures JobOk(s', j) {
      if j < |Jobs(s)| { JobKept(s, a, j); } else { NewJobOk(s, a); }
    }
    AttemptsKept(s, a);
    ResultsKept(s, a);
    RepliesKept(s, a);
  }

  lemma {:induction false} RunKeepsInv(run: seq<Action>)
    requires IsRun(run)
    ensures Inv(After(run))
    decreases |run|
  {
    if run == [] {
    } else {
      RunKeepsInv(run[..|run| - 1]);
      StepKeepsInv(After(run[..|run| - 1]), run[|run| - 1]);
    }
  }
}
