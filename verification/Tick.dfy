/** One tick of a worker: claim one job at a time, attempt it, store the result and report. */
module Tick {
  import opened Push
  import opened Recurrence
  import opened Worker
  import opened Protocol
  import LeaseTiming

  datatype Report = Report(claimed: nat, completed: nat, retrying: nat, failed: nat)

  datatype TickError = BadOptions | BadLease | Interrupted | ClaimFailed | FinishFailed

  // What surrounds one round: whether the caller gave up, the claim, the attempt, and what
  // others write before the finish.
  datatype Round = Round(interrupted: bool, claiming: Claiming, now: int, attempt: Attempt, meanwhile: Docs -> Docs)

  function LeaseOf(lease: int): int {
    if lease == 0 then 300_000_000_000 else lease
  }

  function TimeoutOf(sendTimeout: int): int {
    if sendTimeout == 0 then 240_000_000_000 else sendTimeout
  }

  function Counted(report: Report, updated: Job): Report {
    if updated.state == Failed then report.(failed := report.failed + 1)
    else if updated.attempts > 0 then report.(retrying := report.retrying + 1)
    else report.(completed := report.completed + 1)
  }

  datatype Progress = Progress(docs: Docs, report: Report, err: Option<TickError>, attempts: seq<(Job, Attempt)>)

  // One round, and whether the tick goes on after it. A finish that fails ends the tick.
  ghost function OneRound(r: Round, shard: nat, lease: int, p: Progress): (Progress, bool) {
    if r.interrupted then (p.(err := Some(Interrupted)), false)
    else
      var w := r.claiming;
      var claimed := ClaimedJobs(p.docs, w.Reached(1), w, shard, r.now, lease);
      var docs := ClaimAll(p.docs, w.Reached(1), w, shard, r.now, lease);
      if w.Error(1).Some? then (p.(docs := docs, err := Some(ClaimFailed)), false)
      else if claimed == [] then (p.(docs := docs), false)
      else
        var updated := Delivered(claimed[0], r.attempt);
        var report := p.report.(claimed := p.report.claimed + 1);
        var (finished, err) := FinishDoc(r.meanwhile(docs), claimed[0], updated);
        if err.Some? then (p.(docs := finished, report := report, err := Some(FinishFailed)), false)
        else (Progress(finished, Counted(report, updated), p.err, p.attempts + [(claimed[0], r.attempt)]), true)
  }

  // The rounds from n on; attempts lists the jobs whose result was stored.
  ghost function Rounds(world: nat -> Round, n: nat, limit: nat, shard: nat, lease: int, p: Progress): Progress
    requires n <= limit
    decreases limit - n
  {
    if n == limit then p
    else
      var (q, more) := OneRound(world(n), shard, lease, p);
      if more then Rounds(world, n + 1, limit, shard, lease, q) else q
  }

  method Run(store: JobStore, world: nat -> Round, shard: int, limit: int, lease: int, sendTimeout: int)
    returns (report: Report, err: Option<TickError>, ghost attempts: seq<(Job, Attempt)>)
    modifies store
    ensures err == Some(BadOptions) <==> !(0 <= shard < SHARD_COUNT && 1 <= limit <= 1000)
    ensures err == Some(BadLease) <==>
              0 <= shard < SHARD_COUNT && 1 <= limit <= 1000
              && !LeaseTiming.GuardAccepts(LeaseOf(lease), TimeoutOf(sendTimeout))
    // Five minutes of lease and four of sending by default.
    ensures err == Some(BadLease) || err == Some(BadOptions) <==>
              !(0 <= shard < 32 && 1 <= limit <= 1000)
              || (if sendTimeout == 0 then 240_000_000_000 else sendTimeout) <= 0
              || (if lease == 0 then 300_000_000_000 else lease)
                 < (if sendTimeout == 0 then 240_000_000_000 else sendTimeout) + 30_000_000_000
    ensures err == Some(BadOptions) || err == Some(BadLease) ==>
              store.docs == old(store.docs) && report == Report(0, 0, 0, 0)
    ensures err != Some(BadOptions) && err != Some(BadLease) ==>
              Rounds(world, 0, limit, shard, LeaseOf(lease), Progress(old(store.docs), Report(0, 0, 0, 0), None, []))
              == Progress(store.docs, report, err, attempts)
  {
    report, err, attempts := Report(0, 0, 0, 0), None, [];
    if shard < 0 || shard >= SHARD_COUNT || limit < 1 || limit > 1000 {
      err := Some(BadOptions);
      return;
    }
    var ttl, timeout := lease, sendTimeout;
    if ttl == 0 {
      ttl := 300_000_000_000;
    }
    if timeout == 0 {
      timeout := 240_000_000_000;
    }
    if timeout <= 0 || ttl < timeout + 30_000_000_000 {
      err := Some(BadLease);
      return;
    }
    hide OneRound, Rounds;
    ghost var begin := Progress(old(store.docs), report, None, []);
    RoundsGrow(world, 0, limit, shard, ttl, begin);
    for n := 0 to limit
      invariant err == None
      invariant Rounds(world, 0, limit, shard, ttl, begin)
                  == Rounds(world, n, limit, shard, ttl, Progress(store.docs, report, None, attempts))
    {
      RoundsAre(world, n, limit, shard, ttl, Progress(store.docs, report, None, attempts));
      var more;
      report, err, more, attempts := RunRound(store, world(n), shard, ttl, report, attempts);
      if !more {
        return;
      }
    }
    RoundsAre(world, limit, limit, shard, ttl, Progress(store.docs, report, None, attempts));
  }

  // The body of the tick's loop.
  method RunRound(store: JobStore, r: Round, shard: nat, lease: int, report: Report,
                  ghost attempts: seq<(Job, Attempt)>)
    returns (counted: Report, err: Option<TickError>, more: bool, ghost attempts': seq<(Job, Attempt)>)
    requires shard < SHARD_COUNT && lease > 0
    modifies store
    ensures (Progress(store.docs, counted, err, attempts'), more)
            == OneRound(r, shard, lease, Progress(old(store.docs), report, None, attempts))
    ensures more ==> err.None?
  {
    hide ClaimAll, ClaimedJobs, FinishDoc, Delivered;
    counted, err, more, attempts' := report, None, false, attempts;
    if r.interrupted {
      err := Some(Interrupted);
      return;
    }
    var claimed, failure;
    ghost var trail, won;
    claimed, failure, trail, won := store.ClaimDue(r.claiming, r.now, shard, 1, lease);
    if failure.Some? {
      err := Some(ClaimFailed);
      return;
    }
    if |claimed| == 0 {
      return;
    }
    var job := claimed[0];
    counted := counted.(claimed := counted.claimed + 1);
    var updated := Deliver(job, r.attempt);
    store.docs := r.meanwhile(store.docs);
    var lost := store.Finish(job, updated);
    if lost.Some? {
      err := Some(FinishFailed);
      return;
    }
    more, attempts' := true, attempts + [(job, r.attempt)];
    if updated.state == Failed {
      counted := counted.(failed := counted.failed + 1);
    } else if updated.attempts > 0 {
      counted := counted.(retrying := counted.retrying + 1);
    } else {
      counted := counted.(completed := counted.completed + 1);
    }
  }

  lemma RoundsAre(world: nat -> Round, n: nat, limit: nat, shard: nat, lease: int, p: Progress)
    requires n <= limit
    ensures n == limit ==> Rounds(world, n, limit, shard, lease, p) == p
    ensures n < limit ==>
              var (q, more) := OneRound(world(n), shard, lease, p);
              Rounds(world, n, limit, shard, lease, p) ==
              if more then Rounds(world, n + 1, limit, shard, lease, q) else q
  {
  }

  // ---- What the report means ---------------------------------------------------------------

  ghost predicate CountsAs(job: Job, a: Attempt, completed: bool, retrying: bool) {
    && (completed <==>
          EndingOf(job, a).Advanced? || (EndingOf(job, a).Finished? && !Delivered(job, a).hasPermanentFailure))
    && (retrying <==> EndingOf(job, a).Retried?)
  }

  ghost function HowMany(attempts: seq<(Job, Attempt)>, completed: bool, retrying: bool): nat {
    if attempts == [] then 0
    else
      var (job, a) := attempts[|attempts| - 1];
      HowMany(attempts[..|attempts| - 1], completed, retrying)
        + (if CountsAs(job, a, completed, retrying) then 1 else 0)
  }

  // The jobs whose result was stored, sorted into the three counts of the report.
  ghost predicate Accounts(p: Progress) {
    && p.report.completed == HowMany(p.attempts, true, false)
    && p.report.retrying == HowMany(p.attempts, false, true)
    && p.report.failed == HowMany(p.attempts, false, false)
    && p.report.completed + p.report.retrying + p.report.failed == |p.attempts|
  }

  lemma CountedMeans(job: Job, a: Attempt, report: Report)
    requires job.state == Ready
    ensures Counted(report, Delivered(job, a)) ==
            Report(report.claimed, report.completed + (if CountsAs(job, a, true, false) then 1 else 0),
                   report.retrying + (if CountsAs(job, a, false, true) then 1 else 0),
                   report.failed + (if CountsAs(job, a, false, false) then 1 else 0))
    ensures var r := Counted(report, Delivered(job, a));
            r.completed + r.retrying + r.failed == report.completed + report.retrying + report.failed + 1
  {
    hide Delivered, EndingOf;
    EndingShows(job, a);
  }

  lemma EndingShows(job: Job, a: Attempt)
    requires job.state == Ready
    ensures var u := Delivered(job, a);
            match EndingOf(job, a)
            case Retried => u.state == Ready && u.attempts == job.attempts + 1
            case Exhausted => u.state == Failed
            case Broken => u.state == Failed
            case Advanced => u.state == Ready && u.attempts == 0
            case Finished => u.attempts == 0 && u.state == if u.hasPermanentFailure then Failed else Done
  {
    hide TallyOf, ReplyTo, Sent, CleanupFailed, NextDue;
  }

  // Attempts are only ever added, and no round reports bad settings.
  lemma {:induction false} RoundsGrow(world: nat -> Round, n: nat, limit: nat, shard: nat, lease: int, p: Progress)
    requires n <= limit
    ensures var end := Rounds(world, n, limit, shard, lease, p);
            p.attempts <= end.attempts && (p.err.None? ==> end.err != Some(BadOptions) && end.err != Some(BadLease))
    decreases limit - n
  {
    hide ClaimAll, ClaimedJobs, FinishDoc, Delivered, Counted;
    if n < limit {
      var (q, more) := OneRound(world(n), shard, lease, p);
      if more { RoundsGrow(world, n + 1, limit, shard, lease, q); }
    }
  }

  lemma OneRoundAccounts(r: Round, shard: nat, lease: int, p: Progress)
    requires p.err.None? && Accounts(p) && p.report.claimed == |p.attempts|
    ensures var (q, more) := OneRound(r, shard, lease, p);
            && Accounts(q)
            && (more ==> q.err.None? && |q.attempts| == q.report.claimed == p.report.claimed + 1)
            && (!more ==> q.attempts == p.attempts
                          && q.report.claimed == |q.attempts| + (if q.err == Some(FinishFailed) then 1 else 0))
  {
    hide ClaimAll, ClaimedJobs, FinishDoc, Delivered, CountsAs, Counted;
    var (q, more) := OneRound(r, shard, lease, p);
    if more {
      var (job, a) := q.attempts[|p.attempts|];
      assert q.attempts[..|q.attempts| - 1] == p.attempts;
      ClaimedAreLeased(p.docs, r.claiming.Reached(1), r.claiming, shard, r.now, lease);
      CountedMeans(job, a, p.report.(claimed := p.report.claimed + 1));
    }
  }

  // A tick claims at most its limit; it has stored every job it claimed, but for the last
  // one when a finish fails; and the report tells how the stored attempts ended.
  lemma {:induction false} ReportAccounts(world: nat -> Round, n: nat, limit: nat, shard: nat, lease: int, p: Progress)
    requires n <= limit && p.err.None? && Accounts(p) && p.report.claimed == |p.attempts| <= n
    ensures var end := Rounds(world, n, limit, shard, lease, p);
            Accounts(end) && |end.attempts| <= end.report.claimed <= limit
            && end.report.claimed == |end.attempts| + (if end.err == Some(FinishFailed) then 1 else 0)
    decreases limit - n
  {
    hide OneRound, Accounts;
    if n < limit {
      var (q, more) := OneRound(world(n), shard, lease, p);
      OneRoundAccounts(world(n), shard, lease, p);
      if more { ReportAccounts(world, n + 1, limit, shard, lease, q); }
    }
  }
}
