/** What the queue promises over whole runs: exactly-once results, fencing, lifecycles, idempotent submits, paging. */
module JobTheorems {
  import opened Common
  import opened JobQueue
  import opened JobRuns

  // --- exactly-once results ---

  function ResultsFor(results: seq<ResultRow>, j: nat): nat {
    if results == [] then 0
    else ResultsFor(results[..|results| - 1], j) + if results[|results| - 1].job == j then 1 else 0
  }

  lemma {:induction false} CountResults(results: seq<ResultRow>, j: nat, only: Option<nat>)
    requires forall r :: 0 <= r < |results| ==> (results[r].job == j <==> only == Some(r))
    requires only.Some? ==> only.value < |results|
    ensures ResultsFor(results, j) == if only.Some? then 1 else 0
  {
    if results == [] {
    } else {
      var last := |results| - 1;
      CountResults(results[..last], j, if only == Some(last) then None else only);
    }
  }

  /** Under any interleaving of workers, cancels, recoveries and crashes a job has at most one result, has one
      exactly when it is completed, and every recorded directory is published. */
  lemma ExactlyOneResult(run: seq<Action>, j: nat)
    requires IsRun(run) && j < |Jobs(After(run))|
    ensures var s := After(run);
      && ResultsFor(s.t.results, j) == (if Jobs(s)[j].state.Completed? then 1 else 0)
      && forall r :: 0 <= r < |s.t.results| ==>
        s.t.results[r].directory < |s.dirs| && s.dirs[s.t.results[r].directory] == Published
  {
    RunKeepsInv(run);
    OneResultEach(After(run), j);
  }

  lemma OneResultEach(s: Sys, j: nat)
    requires JobsOk(s) && ResultsOk(s) && j < |Jobs(s)|
    ensures ResultsFor(s.t.results, j) == if Jobs(s)[j].state.Completed? then 1 else 0
    ensures forall r :: 0 <= r < |s.t.results| ==>
      s.t.results[r].directory < |s.dirs| && s.dirs[s.t.results[r].directory] == Published
  {
    assert JobOk(s, j);
    forall r | 0 <= r < |s.t.results|
      ensures s.t.results[r].job == j <==> Jobs(s)[j].result == Some(r)
      ensures s.t.results[r].directory < |s.dirs| && s.dirs[s.t.results[r].directory] == Published {
      assert ResultOk(s, r);
    }
    CountResults(s.t.results, j, Jobs(s)[j].result);
  }

  /** A recorded result stays recorded, and its directory stays published, for ever. */
  lemma {:induction false} ResultsAreKept(run: seq<Action>, n: nat, r: nat)
    requires IsRun(run) && n <= |run| && IsRun(run[..n]) && r < |After(run[..n]).t.results|
    ensures var s := After(run);
      && r < |s.t.results| && s.t.results[r] == After(run[..n]).t.results[r]
      && s.t.results[r].directory < |s.dirs| && s.dirs[s.t.results[r].directory] == Published
    decreases |run|
  {
    RunKeepsInv(run);
    if n == |run| {
      assert run[..n] == run;
    } else {
      assert run[..|run| - 1][..n] == run[..n];
      ResultsAreKept(run[..|run| - 1], n, r);
      StepGrows(After(run[..|run| - 1]), run[|run| - 1]);
      assert After(run).t.results[..|After(run[..|run| - 1]).t.results|][r] == After(run).t.results[r];
    }
    assert ResultOk(After(run), r);
  }

  // --- fencing ---

  /** The attempt that took the step, if it was an attempt. */
  function ByAttempt(a: Action): Option<nat> {
    match a
    case Beat(k, _, _) => Some(k)
    case GiveUp(k, _) => Some(k)
    case Confirm(k) => Some(k)
    case Stage(k) => Some(k)
    case Unstage(k) => Some(k)
    case Publish(k) => Some(k)
    case Record(k) => Some(k)
    case Discard(k) => Some(k)
    case Die(k) => Some(k)
    case _ => None
  }

  /** Token `k` was drawn and leases its job no longer. */
  predicate Fenced(s: Sys, k: nat) {
    k < |s.attempts| && s.attempts[k].job < |Jobs(s)| && Jobs(s)[s.attempts[k].job].token != Some(k)
  }

  lemma FencedStep(s: Sys, a: Action, k: nat)
    requires Enabled(s, a) && Fenced(s, k)
    ensures Fenced(Do(s, a), k) && (ByAttempt(a) == Some(k) ==> Do(s, a).t == s.t)
  {
    StepGrows(s, a);
    StepMoves(s, a, s.attempts[k].job);
  }

  /** A lease on job `j` by token `k` that runs to `until`. */
  predicate LeaseTo(s: Sys, j: nat, k: nat, until: int) {
    && j < |Jobs(s)| && k < |s.attempts| && s.attempts[k].job == j
    && (Jobs(s)[j].state.Running? || Jobs(s)[j].state.CancelRequested?)
    && Jobs(s)[j].token == Some(k) && Jobs(s)[j].expires.Some? && Jobs(s)[j].expires.value == until
  }

  /** Recovery takes a lapsed lease back and fences its token: a job asked to cancel is cancelled, a first attempt is
      queued again, a second one has failed. */
  lemma RecoveryFences(s: Sys, j: nat, k: nat, until: int)
    requires Inv(s) && LeaseTo(s, j, k, until) && until < s.now
    ensures Fenced(Do(s, Recover), k)
    ensures var before, after := Jobs(s)[j], Jobs(Do(s, Recover))[j];
      && after.token.None? && after.expires.None?
      && after.state == (if before.state.CancelRequested? then Cancelled
                         else if before.attempt < 2 then Queued else Failed)
      && (after.state.Failed? ==> after.failure == Some(WorkerLost))
  {}

  /** A lapsed lease that nobody took back yet allows its worker nothing but to record a result. */
  lemma LapsedOnlyRecords(s: Sys, a: Action, j: nat, k: nat, until: int)
    requires Enabled(s, a) && LeaseTo(s, j, k, until) && until < s.now && ByAttempt(a) == Some(k) && !a.Record?
    ensures Do(s, a).t == s.t
  {}

  /** A claim or a heartbeat starts a lease of the length it asks for, now. */
  lemma LeaseStarts(s: Sys, a: Action, j: nat, k: nat, lease: int)
    requires Enabled(s, a) && Inv(s)
    requires || (a.Claim? && a.lease == lease && NextQueued(Jobs(s)) == Some(j) && k == |s.attempts|)
      || (a.Beat? && a.lease == lease && a.attempt == k && s.attempts[k].job == j
          && exists until :: LeaseTo(s, j, k, until) && s.now <= until)
    ensures LeaseTo(Do(s, a), j, k, s.now + lease)
  {}

  /** The worker of token `k` ends its job. */
  predicate Ends(a: Action, k: nat) {
    ByAttempt(a) == Some(k) && (a.GiveUp? || a.Confirm? || a.Record?)
  }

  /** Token `k` leases job `j` at least up to `until`, or its worker has ended the job in these steps. */
  ghost predicate Holding(s: Sys, done: seq<Action>, j: nat, k: nat, until: int) {
    || (exists more :: LeaseTo(s, j, k, more) && until <= more)
    || (j < |Jobs(s)| && Jobs(s)[j].state.Terminal() && exists i :: 0 <= i < |done| && Ends(done[i], k))
  }

  /** While a lease runs no step by anyone else takes it, recovery included. */
  lemma StepKeepsLease(s: Sys, a: Action, j: nat, k: nat, more: int, until: int)
    requires Enabled(s, a) && LeaseTo(s, j, k, more) && s.now <= until <= more
    requires a.Beat? && a.attempt == k ==> until <= s.now + a.lease
    ensures (exists longer :: LeaseTo(Do(s, a), j, k, longer) && until <= longer)
      || (Ends(a, k) && Jobs(Do(s, a))[j].state.Terminal())
    ensures a.Recover? ==> Jobs(Do(s, a))[j] == Jobs(s)[j]
  {
    StepMoves(s, a, j);
    StepGrows(s, a);
    var row := Jobs(Do(s, a))[j];
    if row.expires.Some? && LeaseTo(Do(s, a), j, k, row.expires.value) { assert until <= row.expires.value; }
  }

  /** The later heartbeats of token `k` ask for no less than `lease`. */
  predicate KeepsBeating(steps: seq<Action>, k: nat, lease: int) {
    forall i :: 0 <= i < |steps| && steps[i].Beat? && steps[i].attempt == k ==> lease <= steps[i].lease
  }

  /** A worker that claimed or beat with lease `lease` keeps its job for that long: whatever clients, other workers,
      recoveries and crashes do meanwhile, its token leases the job until its own worker ends it. */
  lemma {:induction false} LeaseHolds(run: seq<Action>, n: nat, j: nat, k: nat, lease: int)
    requires IsRun(run) && n <= |run| && IsRun(run[..n]) && LeaseTo(After(run[..n]), j, k, After(run[..n]).now + lease)
    requires After(run).now <= After(run[..n]).now + lease && KeepsBeating(run[n..], k, lease)
    ensures Holding(After(run), run[n..], j, k, After(run[..n]).now + lease)
    ensures After(run[..n]).now <= After(run).now
    decreases |run|
  {
    if n == |run| {
      assert run[..n] == run;
    } else {
      var front, a, until := run[..|run| - 1], run[|run| - 1], After(run[..n]).now + lease;
      assert front[..n] == run[..n] && run[n..] == front[n..] + [a];
      StepGrows(After(front), a);
      assert forall i :: 0 <= i < |front[n..]| ==> front[n..][i] == run[n..][i];
      LeaseHolds(front, n, j, k, lease);
      HoldingNext(After(front), front[n..], a, j, k, until, lease);
    }
  }

  lemma HoldingNext(s: Sys, done: seq<Action>, a: Action, j: nat, k: nat, until: int, lease: int)
    requires Enabled(s, a) && Holding(s, done, j, k, until) && s.now <= until <= s.now + lease
    requires a.Beat? && a.attempt == k ==> lease <= a.lease
    ensures Holding(Do(s, a), done + [a], j, k, until)
  {
    var more := done + [a];
    assert more[|done|] == a && forall i :: 0 <= i < |done| ==> more[i] == done[i];
    if longer :| LeaseTo(s, j, k, longer) && until <= longer {
      StepKeepsLease(s, a, j, k, longer, until);
    } else {
      var i :| 0 <= i < |done| && Ends(done[i], k);
      StepMoves(s, a, j);
      assert Ends(more[i], k);
    }
  }

  /** No recovery within the time of a lease changes its job. */
  lemma {:induction false} NotTakenBack(run: seq<Action>, n: nat, j: nat, k: nat, lease: int)
    requires IsRun(run) && n < |run| && IsRun(run[..n]) && LeaseTo(After(run[..n]), j, k, After(run[..n]).now + lease)
    requires After(run).now <= After(run[..n]).now + lease && KeepsBeating(run[n..], k, lease)
    requires run[|run| - 1].Recover?
    ensures j < |Jobs(After(run))| && Jobs(After(run))[j] == Jobs(After(run[..|run| - 1]))[j]
  {
    var front := run[..|run| - 1];
    assert front[..n] == run[..n];
    assert forall i :: 0 <= i < |front[n..]| ==> front[n..][i] == run[n..][i];
    LeaseHolds(front, n, j, k, lease);
    var until := After(run[..n]).now + lease;
    if longer :| LeaseTo(After(front), j, k, longer) && until <= longer {
      StepKeepsLease(After(front), Recover, j, k, longer, until);
    } else {
      StepMoves(After(front), Recover, j);
    }
  }

  lemma {:induction false} FencedForever(run: seq<Action>, n: nat, k: nat)
    requires IsRun(run) && n <= |run| && IsRun(run[..n]) && Fenced(After(run[..n]), k)
    ensures Fenced(After(run), k)
    decreases |run|
  {
    if n == |run| {
      assert run[..n] == run;
    } else {
      assert run[..|run| - 1][..n] == run[..n];
      FencedForever(run[..|run| - 1], n, k);
      FencedStep(After(run[..|run| - 1]), run[|run| - 1], k);
    }
  }

  /** Whatever a process does with a token that was once taken back, at any later time, changes no job and no result. */
  lemma FencedNeverActs(run: seq<Action>, n: nat, k: nat)
    requires IsRun(run) && n < |run| && IsRun(run[..n]) && Fenced(After(run[..n]), k)
    requires ByAttempt(run[|run| - 1]) == Some(k)
    ensures After(run).t == After(run[..|run| - 1]).t
  {
    assert run[..|run| - 1][..n] == run[..n];
    FencedForever(run[..|run| - 1], n, k);
    FencedStep(After(run[..|run| - 1]), run[|run| - 1], k);
  }

  // --- lifecycle ---

  /** A terminal row is never rewritten again, by anyone. */
  lemma {:induction false} TerminalIsFinal(run: seq<Action>, n: nat, j: nat)
    requires IsRun(run) && n <= |run| && IsRun(run[..n])
    requires j < |Jobs(After(run[..n]))| && Jobs(After(run[..n]))[j].state.Terminal()
    ensures j < |Jobs(After(run))| && Jobs(After(run))[j] == Jobs(After(run[..n]))[j]
    decreases |run|
  {
    if n == |run| {
      assert run[..n] == run;
    } else {
      assert run[..|run| - 1][..n] == run[..n];
      TerminalIsFinal(run[..|run| - 1], n, j);
      StepMoves(After(run[..|run| - 1]), run[|run| - 1], j);
    }
  }

  /** How many more transitions a row can make. */
  function Rank(job: Job): nat
    requires job.attempt <= MAX_ATTEMPTS
  {
    match job.state
    case Queued => 3 * (MAX_ATTEMPTS - job.attempt) + 1
    case Running => 3 * (MAX_ATTEMPTS - job.attempt) + 2
    case CancelRequested => 1
    case _ => 0
  }

  /** Every move other than a heartbeat that changes the row lowers its rank; nothing raises it. */
  lemma MovesLowerRank(job: Job, move: Move, now: int, token: nat, result: nat)
    requires Allowed(job, move) && LifecycleOk(job)
    ensures var job' := Moved(job, move, now, token, result);
      && job'.attempt <= MAX_ATTEMPTS && Rank(job') <= Rank(job)
      && (job' != job && !move.KeptAlive? ==> Rank(job') < Rank(job))
      && (move.KeptAlive? ==> job'.state == job.state)
  {}

  /** The last step of the run changed row `j`, and not by a heartbeat. */
  predicate Transitions(s: Sys, a: Action, j: nat)
    requires Enabled(s, a)
  {
    j < |Jobs(s)| && Jobs(Do(s, a))[j] != Jobs(s)[j] && !MoveOf(s, a, j).KeptAlive?
  }

  function TransitionCount(run: seq<Action>, j: nat): nat
    requires IsRun(run)
  {
    if run == [] then 0
    else
      var front := run[..|run| - 1];
      TransitionCount(front, j) + if Transitions(After(front), run[|run| - 1], j) then 1 else 0
  }

  /** However long the run, a job makes at most seven transitions. */
  lemma {:induction false} LifecycleEnds(run: seq<Action>, j: nat)
    requires IsRun(run)
    ensures j >= |Jobs(After(run))| ==> TransitionCount(run, j) == 0
    ensures j < |Jobs(After(run))| ==>
      Jobs(After(run))[j].attempt <= MAX_ATTEMPTS
      && TransitionCount(run, j) + Rank(Jobs(After(run))[j]) <= 3 * MAX_ATTEMPTS + 1
    decreases |run|
  {
    if run == [] {
    } else {
      var front, a := run[..|run| - 1], run[|run| - 1];
      var s := After(front);
      LifecycleEnds(front, j);
      RunKeepsInv(front);
      StepGrows(s, a);
      if j < |Jobs(s)| {
        assert JobOk(s, j);
        StepMoves(s, a, j);
        MovesLowerRank(Jobs(s)[j], MoveOf(s, a, j), s.now, |s.attempts|, |s.t.results|);
      }
    }
  }

  function ClaimSteps(run: seq<Action>, j: nat): nat
    requires IsRun(run)
  {
    if run == [] then 0
    else
      var front, a := run[..|run| - 1], run[|run| - 1];
      ClaimSteps(front, j) + if a.Claim? && NextQueued(Jobs(After(front))) == Some(j) then 1 else 0
  }

  /** Every job is claimed at most twice; a lease exists exactly in active states; recorded times are in order. */
  lemma {:induction false} AtMostTwoClaims(run: seq<Action>, j: nat)
    requires IsRun(run) && j < |Jobs(After(run))|
    ensures var job := Jobs(After(run))[j];
      ClaimSteps(run, j) == job.attempt <= MAX_ATTEMPTS && LifecycleOk(job) && TimesInOrder(job, After(run).now)
  {
    RunKeepsInv(run);
    assert JobOk(After(run), j);
    ClaimsAreCounted(run, j);
  }

  lemma {:induction false} ClaimsAreCounted(run: seq<Action>, j: nat)
    requires IsRun(run)
    ensures ClaimSteps(run, j) == ClaimsOf(After(run).attempts, j)
    decreases |run|
  {
    if run == [] {
    } else {
      ClaimsAreCounted(run[..|run| - 1], j);
      StepClaims(After(run[..|run| - 1]), run[|run| - 1], j);
    }
  }

  // --- idempotent submit ---

  /** What a row was asked for. */
  function RequestOf(job: Job): Call { Call(job.owner, job.key, job.fingerprint) }

  function Requests(jobs: seq<Job>): (r: seq<Call>)
    ensures |r| == |jobs| && forall j :: 0 <= j < |r| ==> r[j] == RequestOf(jobs[j])
  {
    seq(|jobs|, j requires 0 <= j < |jobs| => RequestOf(jobs[j]))
  }

  /** A server that takes one caller at a time: the row that holds the caller's key, its answer, and the new table. */
  function Holder(table: seq<Call>, call: Call): (r: Option<nat>)
    ensures r.Some? ==> r.value < |table|
  {
    if table == [] then None
    else
      var last := |table| - 1;
      if table[last].owner == call.owner && table[last].key == call.key then Some(last) else Holder(table[..last], call)
  }

  function Served(table: seq<Call>, call: Call): Reply {
    match Holder(table, call)
    case Some(row) => if table[row].fingerprint == call.fingerprint then Existing(row) else Conflict
    case None => Created(|table|)
  }

  function TableAfter(replies: seq<Answered>): seq<Call> {
    if replies == [] then []
    else
      var front, call := TableAfter(replies[..|replies| - 1]), replies[|replies| - 1].call;
      if Holder(front, call).Some? then front else front + [call]
  }

  /** Every reply is the server's, on the table the earlier callers left. */
  predicate InTurn(replies: seq<Answered>) {
    forall k :: 0 <= k < |replies| ==> replies[k].reply == Served(TableAfter(replies[..k]), replies[k].call)
  }

  lemma {:induction false} HolderIsRow(jobs: seq<Job>, call: Call)
    ensures Holder(Requests(jobs), call) == JobForKey(jobs, call.owner, call.key)
  {
    if jobs == [] {
    } else {
      HolderIsRow(jobs[..|jobs| - 1], call);
      assert Requests(jobs[..|jobs| - 1]) == Requests(jobs)[..|jobs| - 1];
    }
  }

  /** The transaction, and the unlocked look that finds a row, answer what the server answers. */
  lemma AnswerIsServed(jobs: seq<Job>, call: Call, now: int)
    ensures var (after, reply) := GetOrInsert(jobs, call.owner, call.key, call.fingerprint, now);
      && reply == Served(Requests(jobs), call)
      && Requests(after) == if Holder(Requests(jobs), call).Some? then Requests(jobs) else Requests(jobs) + [call]
  {
    HolderIsRow(jobs, call);
  }

  /** A step that answers a caller is one turn of the server; any other leaves all requests alone. */
  lemma StepIsTurn(s: Sys, a: Action)
    requires Enabled(s, a)
    ensures var s' := Do(s, a);
      if |s'.replies| == |s.replies| then s'.replies == s.replies && Requests(Jobs(s')) == Requests(Jobs(s))
      else
        && |s'.replies| == |s.replies| + 1 && s'.replies[..|s.replies|] == s.replies
        && var answered := s'.replies[|s.replies|];
        && answered.reply == Served(Requests(Jobs(s)), answered.call)
        && Requests(Jobs(s')) ==
           if Holder(Requests(Jobs(s)), answered.call).Some? then Requests(Jobs(s))
           else Requests(Jobs(s)) + [answered.call]
  {
    if a.PreCheck? {
      AnswerIsServed(Jobs(s), a.call, s.now);
      HolderIsRow(Jobs(s), a.call);
    } else if a.LockedSubmit? {
      AnswerIsServed(Jobs(s), s.calls[a.pending], s.now);
    } else {
      NoNewRows(s, a);
    }
  }

  lemma NoNewRows(s: Sys, a: Action)
    requires Enabled(s, a) && !a.PreCheck? && !a.LockedSubmit?
    ensures Do(s, a).replies == s.replies && Requests(Jobs(Do(s, a))) == Requests(Jobs(s))
  {
    StepGrows(s, a);
    assert |Jobs(Do(s, a))| == |Jobs(s)|;
    forall j | 0 <= j < |Jobs(s)| ensures RequestOf(Jobs(Do(s, a))[j]) == RequestOf(Jobs(s)[j]) {
      assert SameRequest(Jobs(s)[j], Jobs(Do(s, a))[j]);
    }
  }

  /** The calls submitted in a run. */
  ghost function Submitted(run: seq<Action>): multiset<Call> {
    if run == [] then multiset{}
    else
      var a := run[|run| - 1];
      Submitted(run[..|run| - 1]) + if a.PreCheck? then multiset{a.call} else multiset{}
  }

  ghost function AnsweredCalls(replies: seq<Answered>): multiset<Call> {
    if replies == [] then multiset{}
    else AnsweredCalls(replies[..|replies| - 1]) + multiset{replies[|replies| - 1].call}
  }

  /** Over any run every call submitted has exactly one reply or is still waiting, and nothing else is answered. */
  lemma {:induction false} CallsAreAnsweredOnce(run: seq<Action>)
    requires IsRun(run)
    ensures Submitted(run) == multiset(After(run).calls) + AnsweredCalls(After(run).replies)
  {
    if run == [] {
    } else {
      var front, a := run[..|run| - 1], run[|run| - 1];
      CallsAreAnsweredOnce(front);
      StepAnswersOnce(After(front), a);
    }
  }

  lemma StepAnswersOnce(s: Sys, a: Action)
    requires Enabled(s, a)
    ensures multiset(Do(s, a).calls) + AnsweredCalls(Do(s, a).replies) ==
      multiset(s.calls) + AnsweredCalls(s.replies) + if a.PreCheck? then multiset{a.call} else multiset{}
  {
    hide AnsweredCalls;
    if a.PreCheck? {
      LookAnswersOrWaits(s, a);
      hide Do;
    } else if a.LockedSubmit? {
      TransactionAnswers(s, a);
      hide Do;
      OneFewerCall(s.calls, a.pending);
    } else {
      OthersAnswerNothing(s, a);
      hide Do;
    }
  }

  lemma LookAnswersOrWaits(s: Sys, a: Action)
    requires Enabled(s, a) && a.PreCheck?
    ensures var s' := Do(s, a);
      || (s'.replies == s.replies && s'.calls == s.calls + [a.call])
      || (s'.calls == s.calls && AnsweredCalls(s'.replies) == AnsweredCalls(s.replies) + multiset{a.call})
  {
    hide AnsweredCalls;
    if JobForKey(Jobs(s), a.call.owner, a.call.key).Some? {
      OneMoreAnswer(s.replies, Do(s, a).replies[|s.replies|]);
    }
  }

  lemma TransactionAnswers(s: Sys, a: Action)
    requires Enabled(s, a) && a.LockedSubmit?
    ensures Do(s, a).calls == s.calls[..a.pending] + s.calls[a.pending + 1..]
    ensures AnsweredCalls(Do(s, a).replies) == AnsweredCalls(s.replies) + multiset{s.calls[a.pending]}
  {
    hide AnsweredCalls, GetOrInsert;
    OneMoreAnswer(s.replies, Do(s, a).replies[|s.replies|]);
  }

  lemma OthersAnswerNothing(s: Sys, a: Action)
    requires Enabled(s, a) && !a.PreCheck? && !a.LockedSubmit?
    ensures Do(s, a).replies == s.replies && Do(s, a).calls == s.calls
  {}

  lemma OneMoreAnswer(replies: seq<Answered>, answered: Answered)
    ensures AnsweredCalls(replies + [answered]) == AnsweredCalls(replies) + multiset{answered.call}
  {
    assert (replies + [answered])[..|replies|] == replies;
  }

  lemma OneFewerCall(calls: seq<Call>, c: nat)
    requires c < |calls|
    ensures multiset(calls) == multiset(calls[..c] + calls[c + 1..]) + multiset{calls[c]}
  {
    assert calls == calls[..c] + [calls[c]] + calls[c + 1..];
  }

  lemma TurnNext(replies: seq<Answered>, answered: Answered)
    requires InTurn(replies) && answered.reply == Served(TableAfter(replies), answered.call)
    ensures InTurn(replies + [answered])
    ensures TableAfter(replies + [answered]) ==
      if Holder(TableAfter(replies), answered.call).Some? then TableAfter(replies)
      else TableAfter(replies) + [answered.call]
  {
    var more := replies + [answered];
    assert more[..|replies|] == replies;
    forall k | 0 <= k < |more| ensures more[k].reply == Served(TableAfter(more[..k]), more[k].call) {
      if k < |replies| { assert more[..k] == replies[..k]; }
    }
  }

  lemma StepServes(s: Sys, a: Action)
    requires Enabled(s, a) && InTurn(s.replies) && Requests(Jobs(s)) == TableAfter(s.replies)
    ensures InTurn(Do(s, a).replies) && Requests(Jobs(Do(s, a))) == TableAfter(Do(s, a).replies)
  {
    StepIsTurn(s, a);
    var replies := Do(s, a).replies;
    if |replies| > |s.replies| {
      TurnNext(s.replies, replies[|s.replies|]);
      LastSplits(replies);
    }
  }

  /** Submitting is atomic: over any run, whatever workers, cancels, recoveries, crashes and other callers come between
      a caller's unlocked look and its transaction, all replies in their order are those of a server that takes one
      caller at a time, and the rows are that server's table. */
  lemma {:induction false} SubmitIsAtomic(run: seq<Action>)
    requires IsRun(run)
    ensures InTurn(After(run).replies) && Requests(Jobs(After(run))) == TableAfter(After(run).replies)
    decreases |run|
  {
    if run == [] {
    } else {
      SubmitIsAtomic(run[..|run| - 1]);
      StepServes(After(run[..|run| - 1]), run[|run| - 1]);
    }
  }

  function JobIn(reply: Reply): Option<nat> {
    match reply case Existing(j) => Some(j) case Created(j) => Some(j) case Conflict => None
  }

  /** All callers that used one (owner, key) agree: one request gets one job, created once, and every other
      request gets the conflict reply. */
  lemma SubmitsAgree(run: seq<Action>, k: nat, l: nat)
    requires IsRun(run) && k < l < |After(run).replies|
    requires var q := After(run).replies;
      q[k].call.owner == q[l].call.owner && q[k].call.key == q[l].call.key
    ensures var a, b := After(run).replies[k], After(run).replies[l];
      && (a.call.fingerprint == b.call.fingerprint ==> JobIn(a.reply) == JobIn(b.reply))
      && (a.call.fingerprint != b.call.fingerprint ==> a.reply.Conflict? || b.reply.Conflict?)
      && !(a.reply.Created? && b.reply.Created?)
  {
    RunKeepsInv(run);
    var s := After(run);
    assert ReplyStands(Jobs(s), s.replies[k]) && ReplyStands(Jobs(s), s.replies[l]);
  }

  // --- paging ---

  /** Follow cursors through successive tables, one page per table; the flag says whether the end was reached. */
  function Walk(tables: seq<seq<Job>>, owner: string, before: nat, size: nat): (seq<nat>, bool)
    requires size > 0 && GrowingTables(tables) && (tables != [] ==> before <= |tables[0]|)
  {
    if tables == [] then ([], false)
    else
      var page := PageOf(tables[0], owner, before, size);
      if page.next.None? then (page.rows, true)
      else
        NewestIsExact(tables[0], owner, before);
        assert Newest(tables[0], owner, before)[size - 1] < before;
        assert |tables| > 1 ==> Grows(tables[0], tables[1]) && tables[1..][0] == tables[1];
        var (rows, ended) := Walk(tables[1..], owner, page.next.value, size);
        (page.rows + rows, ended)
  }

  predicate GrowingTables(tables: seq<seq<Job>>) {
    forall i, k :: 0 <= i <= k < |tables| ==> Grows(tables[i], tables[k])
  }

  /** Later tables list the same old rows. */
  lemma {:induction false} NewestKept(jobs: seq<Job>, jobs': seq<Job>, owner: string, before: nat)
    requires Grows(jobs, jobs') && before <= |jobs|
    ensures Newest(jobs', owner, before) == Newest(jobs, owner, before)
  {
    if before == 0 {
    } else {
      NewestKept(jobs, jobs', owner, before - 1);
      assert SameRequest(jobs[before - 1], jobs'[before - 1]);
    }
  }

  /** Continuing below the k-th row lists exactly the rows after it. */
  lemma {:induction false} NewestSplits(jobs: seq<Job>, owner: string, before: nat, k: nat)
    requires before <= |jobs| && k < |Newest(jobs, owner, before)|
    ensures var r := Newest(jobs, owner, before);
      r[k] < before && Newest(jobs, owner, r[k]) == r[k + 1..]
  {
    var r := Newest(jobs, owner, before);
    if jobs[before - 1].owner != owner {
      NewestSplits(jobs, owner, before - 1, k);
    } else if k > 0 {
      NewestSplits(jobs, owner, before - 1, k - 1);
      assert r[1..] == Newest(jobs, owner, before - 1);
      assert r[1..][k..] == r[k + 1..];
    } else {
      assert r[1..] == Newest(jobs, owner, before - 1);
    }
  }

  /** Following cursors to the end lists exactly the rows that existed when paging began, newest first, each once,
      whatever is inserted or changed between the pages. */
  lemma {:induction false} StablePaging(tables: seq<seq<Job>>, owner: string, before: nat, size: nat)
    requires size > 0 && GrowingTables(tables) && tables != [] && before <= |tables[0]|
    ensures Walk(tables, owner, before, size).1 ==>
      Walk(tables, owner, before, size).0 == Newest(tables[0], owner, before)
    decreases |tables|
  {
    var all := Newest(tables[0], owner, before);
    if |all| > size && |tables| > 1 {
      NewestSplits(tables[0], owner, before, size - 1);
      assert Grows(tables[0], tables[1]);
      NewestKept(tables[0], tables[1], owner, all[size - 1]);
      StablePaging(tables[1..], owner, all[size - 1], size);
      TakeThenDrop(all, size);
    }
  }

  /** Enough requests reach the end: one page for every `size` rows and one more. */
  lemma {:induction false} PagingEnds(tables: seq<seq<Job>>, owner: string, before: nat, size: nat, pages: nat)
    requires size > 0 && GrowingTables(tables) && tables != [] && before <= |tables[0]|
    requires |Newest(tables[0], owner, before)| <= Rows(pages, size) && pages <= |tables|
    ensures Walk(tables, owner, before, size).1
    decreases |tables|
  {
    var all := Newest(tables[0], owner, before);
    if |all| > size {
      NewestSplits(tables[0], owner, before, size - 1);
      assert Grows(tables[0], tables[1]);
      NewestKept(tables[0], tables[1], owner, all[size - 1]);
      PagingEnds(tables[1..], owner, all[size - 1], size, pages - 1);
    }
  }

  /** Rows on `pages` full pages. */
  function Rows(pages: nat, size: nat): nat {
    if pages == 0 then 0 else Rows(pages - 1, size) + size
  }

  /** The tables seen at successive moments of any run grow in the sense paging needs. */
  lemma {:induction false} RunsGrow(run: seq<Action>, n: nat)
    requires IsRun(run) && n <= |run| && IsRun(run[..n])
    ensures Grows(Jobs(After(run[..n])), Jobs(After(run)))
    decreases |run|
  {
    if n == |run| {
      assert run[..n] == run;
    } else {
      assert run[..|run| - 1][..n] == run[..n];
      RunsGrow(run[..|run| - 1], n);
      StepGrows(After(run[..|run| - 1]), run[|run| - 1]);
      GrowsTwice(Jobs(After(run[..n])), Jobs(After(run[..|run| - 1])), Jobs(After(run)));
    }
  }

  lemma GrowsTwice(a: seq<Job>, b: seq<Job>, c: seq<Job>)
    requires Grows(a, b) && Grows(b, c)
    ensures Grows(a, c)
  {
    forall j | 0 <= j < |a| ensures SameRequest(a[j], c[j]) {
      assert SameRequest(a[j], b[j]) && SameRequest(b[j], c[j]);
    }
  }
}
