/** One worker's pass over the queue while everyone else keeps using it: recover, claim, supervise, publish, record. */
module DemoWorker {
  import opened Common
  import opened JobQueue
  import opened JobRuns
  import opened JobTheorems

  datatype Outcome = NoJob | CompletedRun | FailedRun | CancelledRun | LeaseLost

  /** How the supervised child ended, or what interrupted it. */
  datatype ChildEnd = Exited(ok: bool) | TimedOut | CancelSeen | LostLease

  class DemoWorker {
    var s: Sys
    ghost var trace: seq<Action>

    ghost predicate Valid()
      reads this
    {
      IsRun(trace) && After(trace) == s && Inv(s)
    }

    constructor ()
      ensures Valid() && s == START
    {
      s, trace := START, [];
    }

    method Take(a: Action)
      requires Valid() && Enabled(s, a)
      modifies this
      ensures Valid() && s == Do(old(s), a) && trace == old(trace) + [a]
    {
      StepKeepsInv(s, a);
      assert (trace + [a])[..|trace|] == trace;
      s, trace := Do(s, a), trace + [a];
    }

    /** Other clients, workers and recoveries do anything at all; attempt `k` takes no step meanwhile. */
    method Others(k: nat)
      requires Valid() && k < |s.attempts|
      modifies this
      ensures Valid() && k < |s.attempts| && s.attempts[k] == old(s.attempts[k])
      ensures DeletedStay(old(s.dirs), s.dirs) && (old(StillAsked(s, k)) ==> StillAsked(s, k))
    {
      var n: int := *;
      for i := 0 to Max(0, n)
        invariant Valid() && k < |s.attempts| && s.attempts[k] == old(s.attempts[k])
        invariant DeletedStay(old(s.dirs), s.dirs) && (old(StillAsked(s, k)) ==> StillAsked(s, k))
      {
        var a: Action := *;
        if Enabled(s, a) && ByAttempt(a) != Some(k) {
          StepKeepsDeleted(s, a);
          if StillAsked(s, k) { StepKeepsAsked(s, a, k); }
          Take(a);
        }
      }
    }

    /** Wait for the child, extending the lease between looks; the number of heartbeats before the deadline is open. */
    method Supervise(k: nat) returns (end: ChildEnd)
      requires Valid() && k < |s.attempts| && s.attempts[k].stage.Working?
      modifies this
      ensures Valid() && k < |s.attempts| && s.attempts[k].job == old(s.attempts[k].job)
      ensures s.attempts[k].stage == if end.LostLease? then Gone else Working
      ensures end.LostLease? ==> Returned(s, k, s.attempts[k].job) && Answers(s, k, LeaseLost)
      ensures end.CancelSeen? ==> StillAsked(s, k)
    {
      var beats: int := *;
      for i := 0 to Max(0, beats)
        invariant Valid() && k < |s.attempts| && s.attempts[k] == old(s.attempts[k])
      {
        Others(k);
        var exited: bool := *;
        if exited {
          var ok: bool := *;
          return Exited(ok);
        }
        var phase: Option<Phase> := *;
        end := HeartbeatOnce(k, phase);
        if end != Exited(true) { return; }
      }
      end := TimedOut;
    }

    /** One heartbeat: Exited(true) means carry on. */
    method HeartbeatOnce(k: nat, phase: Option<Phase>) returns (end: ChildEnd)
      requires Valid() && k < |s.attempts| && s.attempts[k].stage.Working?
      modifies this
      ensures Valid() && k < |s.attempts| && s.attempts[k].job == old(s.attempts[k].job)
      ensures end.LostLease? || end.CancelSeen? || end == Exited(true)
      ensures s.attempts[k].stage == if end.LostLease? then Gone else Working
      ensures end.LostLease? ==> Returned(s, k, s.attempts[k].job) && Answers(s, k, LeaseLost)
      ensures !end.LostLease? ==>
        s.attempts[k].job < |Jobs(s)| && Jobs(s)[s.attempts[k].job].token == Some(k)
        && (end.CancelSeen? <==> Jobs(s)[s.attempts[k].job].state.CancelRequested?)
    {
      var lease: int := *;
      assert AttemptOk(s, k);
      Take(Beat(k, if lease > 0 then lease else 1, phase));
      if s.attempts[k].stage.Gone? { return LostLease; }
      end := if Jobs(s)[s.attempts[k].job].state.CancelRequested? then CancelSeen else Exited(true);
    }

    /** Give the job back as failed; a lease that is gone by now makes it a lost lease instead. */
    method Fail(k: nat, code: FailureCode) returns (outcome: Outcome)
      requires Valid() && k < |s.attempts| && (s.attempts[k].stage.Working? || s.attempts[k].stage.Publishing?)
      modifies this
      ensures Valid() && Returned(s, k, old(s.attempts[k].job)) && DeletedStay(old(s.dirs), s.dirs)
      ensures old(s.attempts[k].stage.Publishing?) ==>
        old(s.attempts[k].stage.dir) < |s.dirs| && s.dirs[old(s.attempts[k].stage.dir)] == Published
      ensures outcome == FailedRun || outcome == LeaseLost
      ensures Answers(s, k, outcome) && (outcome == FailedRun ==> Jobs(s)[s.attempts[k].job].failure == Some(code))
    {
      Others(k);
      var j := s.attempts[k].job;
      assert AttemptOk(s, k);
      var leased := Leased(Jobs(s), j, k, Some(s.now));
      Take(GiveUp(k, code));
      outcome := if leased then FailedRun else LeaseLost;
    }

    /** Confirm a cancel request that was seen; by now the lease may be gone, but the request cannot be. */
    method ConfirmCancelled(k: nat) returns (outcome: Outcome)
      requires Valid() && k < |s.attempts| && s.attempts[k].stage.Working? && StillAsked(s, k)
      modifies this
      ensures Valid() && Returned(s, k, old(s.attempts[k].job))
      ensures outcome == CancelledRun || outcome == LeaseLost
      ensures Answers(s, k, outcome)
    {
      Others(k);
      var j := s.attempts[k].job;
      assert AttemptOk(s, k);
      var leased := Leased(Jobs(s), j, k, Some(s.now)) && Jobs(s)[j].state.CancelRequested?;
      Take(Confirm(k));
      outcome := if leased then CancelledRun else LeaseLost;
    }

    /** Write the files aside, rename them into place, then record them. Whatever happens in between, a result is
        recorded only with its directory published; a directory that goes unrecorded is removed, except after a
        rename whose final sync failed, which `synced` tells. */
    method PublishAndRecord(k: nat) returns (outcome: Outcome, ghost dir: nat, ghost synced: bool)
      requires Valid() && k < |s.attempts| && s.attempts[k].stage.Working?
      modifies this
      ensures Valid() && Returned(s, k, old(s.attempts[k].job)) && Answers(s, k, outcome)
      ensures outcome in {CompletedRun, FailedRun, LeaseLost}
      ensures |old(s.dirs)| <= dir < |s.dirs|
      ensures outcome == CompletedRun ==> RecordedIn(s, s.attempts[k].job, dir)
      ensures outcome != CompletedRun ==> s.dirs[dir] == if synced then Deleted else Published
    {
      dir, synced := |s.dirs|, true;
      Take(Stage(k));
      Others(k);
      assert AttemptOk(s, k);
      var broken: bool := *;
      if broken {
        Take(Unstage(k));
        outcome := Fail(k, ExecutionFailed);
        return;
      }
      Take(Publish(k));
      Others(k);
      assert AttemptOk(s, k);
      var kept: bool := *;
      if !kept {
        synced := false;
        outcome := Fail(k, ExecutionFailed);
        return;
      }
      outcome := RecordResult(k);
    }

    method RecordResult(k: nat) returns (outcome: Outcome)
      requires Valid() && k < |s.attempts| && s.attempts[k].stage.Publishing?
      modifies this
      ensures Valid() && Returned(s, k, old(s.attempts[k].job)) && Answers(s, k, outcome)
      ensures outcome in {CompletedRun, LeaseLost} && old(s.attempts[k].stage.dir) < |s.dirs|
      ensures outcome == CompletedRun ==> RecordedIn(s, s.attempts[k].job, old(s.attempts[k].stage.dir))
      ensures outcome == LeaseLost ==> s.dirs[old(s.attempts[k].stage.dir)] == Deleted
    {
      ghost var j, dir := s.attempts[k].job, s.attempts[k].stage.dir;
      Take(Record(k));
      assert AttemptOk(s, k);
      if s.attempts[k].stage.Gone? {
        assert JobOk(s, j) && ResultOk(s, |s.t.results| - 1);
        assert RecordedIn(s, j, dir);
        return CompletedRun;
      }
      Others(k);
      assert AttemptOk(s, k);
      Take(Discard(k));
      outcome := LeaseLost;
    }

    /** One pass: recover, then work on the oldest queued job, if any, until its attempt is over. The answer is what
        the tables say of the job at that moment; `at` is the moment of the claim, when no lease that had lapsed
        at the start is held any more. */
    method RunOnce() returns (outcome: Outcome, ghost at: Sys)
      requires Valid()
      modifies this
      ensures Valid() && forall q :: Lapsed(old(s), q) ==> Fenced(at, q)
      ensures outcome == NoJob <==> NextQueued(Jobs(at)).None?
      ensures outcome == NoJob ==> s == at
      ensures outcome != NoJob ==>
        Returned(s, |at.attempts|, NextQueued(Jobs(at)).value) && Answers(s, |at.attempts|, outcome)
    {
      assert JobsOk(s);
      Take(Recover);
      Anyone();
      at := s;
      var lease: int := *;
      var attempt := |s.attempts|;
      if NextQueued(Jobs(s)).None? { return NoJob, s; }
      Take(Claim(if lease > 0 then lease else 1));
      outcome := Work(attempt);
    }

    /** Whatever others do, a fenced token stays fenced. */
    method Anyone()
      requires Valid()
      modifies this
      ensures Valid() && forall q :: Fenced(old(s), q) ==> Fenced(s, q)
    {
      var n: int := *;
      for i := 0 to Max(0, n)
        invariant Valid() && forall q :: Fenced(old(s), q) ==> Fenced(s, q)
      {
        var a: Action := *;
        if Enabled(s, a) {
          forall q | Fenced(s, q) ensures Fenced(Do(s, a), q) { FencedStep(s, a, q); }
          Take(a);
        }
      }
    }

    /** Supervise a claimed attempt and bring it to its end. */
    method Work(attempt: nat) returns (outcome: Outcome)
      requires Valid() && attempt < |s.attempts| && s.attempts[attempt].stage.Working?
      modifies this
      ensures Valid() && Returned(s, attempt, old(s.attempts[attempt].job)) && Answers(s, attempt, outcome)
        && outcome != NoJob
    {
      var end := Supervise(attempt);
      if end.LostLease? { return LeaseLost; }
      if end.TimedOut? { outcome := Fail(attempt, Timeout); return; }
      if end.CancelSeen? { outcome := ConfirmCancelled(attempt); return; }
      if !end.ok {
        var code: FailureCode := *;
        outcome := Fail(attempt, code);
        return;
      }
      Others(attempt);
      end := HeartbeatOnce(attempt, Some(Verifying));
      if end.LostLease? { return LeaseLost; }
      if end.CancelSeen? { outcome := ConfirmCancelled(attempt); return; }
      var verified: bool := *;
      if !verified { outcome := Fail(attempt, ArtifactInvalid); return; }
      var published, _, _ := PublishAndRecord(attempt);
      outcome := published;
    }
  }

  /** Token `q` leases its job, but its time is up. */
  predicate Lapsed(s: Sys, q: nat) {
    && q < |s.attempts| && s.attempts[q].job < |Jobs(s)|
    && Jobs(s)[s.attempts[q].job].token == Some(q) && Expired(Jobs(s)[s.attempts[q].job], s.now)
  }

  /** The job of attempt `k` is asked to cancel as long as the attempt's token leases it. */
  predicate StillAsked(s: Sys, k: nat) {
    k < |s.attempts| && s.attempts[k].job < |Jobs(s)|
    && (Jobs(s)[s.attempts[k].job].token == Some(k) ==> Jobs(s)[s.attempts[k].job].state.CancelRequested?)
  }

  predicate DeletedStay(before: seq<DirState>, after: seq<DirState>) {
    |before| <= |after| && forall d :: 0 <= d < |before| && before[d] == Deleted ==> after[d] == Deleted
  }

  /** Nobody holds a deleted directory, so nobody brings one back. */
  lemma StepKeepsDeleted(s: Sys, a: Action)
    requires Enabled(s, a) && AttemptsOk(s)
    ensures DeletedStay(s.dirs, Do(s, a).dirs)
  {
    if a.Publish? { assert AttemptOk(s, a.attempt); }
  }

  /** A cancel request is not withdrawn while the lease lasts, and a token never comes back. */
  lemma StepKeepsAsked(s: Sys, a: Action, k: nat)
    requires Enabled(s, a) && StillAsked(s, k)
    ensures StillAsked(Do(s, a), k)
  {
    StepGrows(s, a);
    StepMoves(s, a, s.attempts[k].job);
  }

  /** Attempt `k` was for job `j` and is over. */
  predicate Returned(s: Sys, k: nat, j: nat) {
    k < |s.attempts| && s.attempts[k] == Attempt(j, Gone) && j < |Jobs(s)|
  }

  /** An attempt's answer is true of the tables: its job ended that way, or its lease is gone. */
  ghost predicate Answers(s: Sys, k: nat, outcome: Outcome)
    requires k < |s.attempts| && s.attempts[k].job < |Jobs(s)|
  {
    var j := s.attempts[k].job;
    match outcome
    case NoJob => false
    case CompletedRun => exists dir :: RecordedIn(s, j, dir)
    case FailedRun => Jobs(s)[j].state.Failed? && Jobs(s)[j].token.None?
    case CancelledRun => Jobs(s)[j].state.Cancelled? && Jobs(s)[j].token.None?
    case LeaseLost => !Leased(Jobs(s), j, k, Some(s.now))
  }

  /** Job `j` is completed, by a row that names the published directory `dir`. */
  predicate RecordedIn(s: Sys, j: nat, dir: nat) {
    && j < |Jobs(s)| && Jobs(s)[j].state.Completed? && Jobs(s)[j].result.Some?
    && Jobs(s)[j].result.value < |s.t.results|
    && s.t.results[Jobs(s)[j].result.value] == ResultRow(j, dir)
    && dir < |s.dirs| && s.dirs[dir] == Published
  }
}
