/** A tick among the other parties of the scheduler is a run of the whole system, so what
    every run keeps holds for ticks. */
module TickRun {
  import opened Push
  import opened Worker
  import opened Protocol
  import LeaseTiming
  import T = Tick

  // ---- Runs, in time when limits are given ---------------------------------------------------

  ghost predicate LegalIn(s: System, step: Step, timeout: Option<string -> int>) {
    Legal(s, step) && (timeout.Some? ==> LeaseTiming.Timely(s, step, timeout.value))
  }

  ghost predicate RunIn(s: System, steps: seq<Step>, timeout: Option<string -> int>) {
    Run(s, steps) && (timeout.Some? ==> LeaseTiming.TimelyRun(s, steps, timeout.value))
  }

  ghost function After(s: System, steps: seq<Step>): System {
    if Run(s, steps) then Exec(s, steps) else s
  }

  ghost function Next(s: System, step: Step): System {
    if Legal(s, step) then Apply(s, step) else s
  }

  lemma {:induction false} TimelyConcat(s: System, a: seq<Step>, b: seq<Step>, timeout: string -> int)
    requires Run(s, a) && LeaseTiming.TimelyRun(s, a, timeout) && LeaseTiming.TimelyRun(Exec(s, a), b, timeout)
    ensures LeaseTiming.TimelyRun(s, a + b, timeout)
    decreases a
  {
    hide Legal, Apply, LeaseTiming.Timely;
    if a == [] {
      assert a + b == b;
    } else {
      assert (a + b)[1..] == a[1..] + b;
      TimelyConcat(Apply(s, a[0]), a[1..], b, timeout);
    }
  }

  lemma Extend(s: System, a: seq<Step>, b: seq<Step>, timeout: Option<string -> int>)
    requires RunIn(s, a, timeout) && RunIn(After(s, a), b, timeout)
    ensures RunIn(s, a + b, timeout) && After(s, a + b) == After(After(s, a), b)
  {
    hide Run, Exec, LeaseTiming.TimelyRun;
    ExecConcat(s, a, b);
    if timeout.Some? { TimelyConcat(s, a, b, timeout.value); }
  }

  lemma OneStep(s: System, step: Step, timeout: Option<string -> int>)
    requires LegalIn(s, step, timeout)
    ensures RunIn(s, [step], timeout) && After(s, [step]) == Next(s, step)
  {
    hide Legal, Apply, LeaseTiming.Timely;
    assert [step][1..] == [];
    assert Run(Apply(s, step), []) && Exec(Apply(s, step), []) == Apply(s, step);
    assert Exec(s, [step]) == Exec(Apply(s, step), []);
    if timeout.Some? { assert LeaseTiming.TimelyRun(Apply(s, step), [], timeout.value); }
  }

  lemma AfterKeepsInv(s: System, steps: seq<Step>)
    requires Inv(s)
    ensures Inv(After(s, steps))
  {
    hide Inv, Run, Exec;
    if Run(s, steps) { RunKeepsInv(s, steps); }
  }

  lemma NextKeepsInv(s: System, step: Step)
    requires Inv(s)
    ensures Inv(Next(s, step))
  {
    hide Inv, Legal, Apply;
    if Legal(s, step) { StepKeepsInv(s, step); }
  }

  // ---- The claim of a worker nobody else acts for -----------------------------------------------

  ghost predicate ActsFor(step: Step, token: string) {
    (step.Work? || step.Finish? || step.Crash?) && step.token == token
  }

  ghost predicate Leaves(steps: seq<Step>, token: string) {
    forall i :: 0 <= i < |steps| ==> !ActsFor(steps[i], token)
  }

  lemma ClaimLeft(s: System, step: Step, token: string)
    requires Legal(s, step) && token in s.claims && token in s.used && !ActsFor(step, token)
    ensures var s' := Apply(s, step); token in s'.claims && token in s'.used && s'.claims[token] == s.claims[token]
  {
    hide Delivered, AfterFinish, NewJob, DistinctIds, IdsSent;
  }

  lemma {:induction false} ClaimStays(s: System, steps: seq<Step>, token: string)
    requires Run(s, steps) && token in s.claims && token in s.used && Leaves(steps, token)
    ensures var s' := Exec(s, steps); token in s'.claims && token in s'.used && s'.claims[token] == s.claims[token]
    decreases steps
  {
    hide Legal, Apply, ActsFor;
    if steps != [] {
      ClaimLeft(s, steps[0], token);
      ClaimStays(Apply(s, steps[0]), steps[1..], token);
    }
  }

  // ---- One round ------------------------------------------------------------------------------

  // What the other parties do before the claim, during the attempt, and before the finish.
  datatype Others = Others(before: seq<Step>, working: seq<Step>, meanwhile: seq<Step>)

  predicate Offered(r: T.Round) {
    !r.interrupted && r.claiming.Reached(1) != []
  }

  function OfferedKey(r: T.Round): Key
    requires Offered(r)
  {
    r.claiming.Reached(1)[0]
  }

  function Claims(r: T.Round, shard: nat, lease: int): Step
    requires Offered(r)
  {
    TakeLease(OfferedKey(r), shard, r.claiming.token(0), r.now, lease)
  }

  // The system at the claim, after it, when the attempt has ended, and at the finish.
  datatype Moments = Moments(claim: System, taken: System, ended: System, finish: System)

  ghost function MomentsOf(r: T.Round, shard: nat, lease: int, s: System, o: Others): Moments
    requires Offered(r)
  {
    var claim := After(s, o.before);
    var taken := Next(claim, Claims(r, shard, lease));
    var ended := After(taken, o.working);
    Moments(claim, taken, ended, After(Next(ended, Work(r.claiming.token(0), r.attempt)), o.meanwhile))
  }

  ghost predicate Won(r: T.Round, shard: nat, lease: int, s: System, o: Others)
    requires Offered(r)
  {
    Claimable(MomentsOf(r, shard, lease, s, o).claim.docs, OfferedKey(r), shard, r.now)
  }

  // The surroundings of a round are the other parties: they act by steps of the system, not
  // for this worker; tokens are fresh; the attempt takes place between claim and finish. When
  // limits are given, everybody's calls return by their deadlines.
  ghost predicate Plays(r: T.Round, shard: nat, lease: int, sendTimeout: int, s: System, o: Others,
                        timeout: Option<string -> int>)
  {
    Offered(r) ==>
      var m := MomentsOf(r, shard, lease, s, o);
      var token := r.claiming.token(0);
      && RunIn(s, o.before, timeout) && r.claiming.others(0, s.docs) == m.claim.docs
      && token != "" && token !in m.claim.used && r.now <= m.claim.clock
      && (timeout.Some? ==> timeout.value(token) == sendTimeout)
      && (Won(r, shard, lease, s, o) ==>
            && RunIn(m.taken, o.working, timeout) && Leaves(o.working, token)
            && Fits(r.attempt, r.now, m.ended.clock)
            && (timeout.Some? ==> FitsInTime(r.attempt, r.now, sendTimeout, m.ended.clock, m.finish.clock))
            && RunIn(Next(m.ended, Work(token, r.attempt)), o.meanwhile, timeout) && Leaves(o.meanwhile, token)
            && r.meanwhile(m.taken.docs) == m.finish.docs)
  }

  ghost predicate Fits(a: Attempt, now: int, clock: int) {
    now <= a.startedAt <= a.endedAt <= clock && (a.lookup.Some? ==> DistinctIds(a.lookup.value))
  }

  predicate FitsInTime(a: Attempt, now: int, sendTimeout: int, ended: int, finish: int) {
    a.startedAt < now + 10_000_000_000 && a.endedAt <= a.startedAt + sendTimeout && ended == a.endedAt
    && finish <= a.endedAt + 20_000_000_000
  }

  // The steps of a round, the other parties' included.
  ghost function Steps(r: T.Round, shard: nat, lease: int, s: System, o: Others): seq<Step> {
    if !Offered(r) then []
    else
      var token := r.claiming.token(0);
      o.before + [Claims(r, shard, lease)]
      + if Won(r, shard, lease, s, o) then o.working + [Work(token, r.attempt)] + o.meanwhile + [Finish(token)] else []
  }

  // ---- A round is a run ----------------------------------------------------------------------

  lemma ClaimIsRun(r: T.Round, shard: nat, lease: int, sendTimeout: int, s: System, o: Others,
                   timeout: Option<string -> int>)
    requires Plays(r, shard, lease, sendTimeout, s, o, timeout) && Offered(r) && Inv(s)
    requires LeaseTiming.GuardAccepts(lease, sendTimeout)
    ensures var m := MomentsOf(r, shard, lease, s, o);
            && RunIn(s, o.before + [Claims(r, shard, lease)], timeout)
            && After(s, o.before + [Claims(r, shard, lease)]) == m.taken
            && Inv(m.claim) && Inv(m.taken) && Legal(m.claim, Claims(r, shard, lease))
  {
    hide Inv, Run, Exec, RunIn, After, Next, Fits, Leaves;
    var m := MomentsOf(r, shard, lease, s, o);
    AfterKeepsInv(s, o.before);
    NextKeepsInv(m.claim, Claims(r, shard, lease));
    OneStep(m.claim, Claims(r, shard, lease), timeout);
    Extend(s, o.before, [Claims(r, shard, lease)], timeout);
  }

  // What a won claim is, at once and for as long as nobody acts for the worker.
  lemma WonClaim(r: T.Round, shard: nat, lease: int, claim: System)
    requires Offered(r) && Inv(claim) && Legal(claim, Claims(r, shard, lease))
    requires Claimable(claim.docs, OfferedKey(r), shard, r.now)
    ensures var taken := Next(claim, Claims(r, shard, lease));
            var token := r.claiming.token(0);
            && taken.docs == ClaimDoc(claim.docs, OfferedKey(r), shard, token, r.now, lease)
            && token in taken.claims && token in taken.used
            && taken.claims[token].phase.Working? && taken.claims[token].takenAt == r.now
            && taken.claims[token].job == Leased(claim.docs[OfferedKey(r)], token, r.now, lease)
  {
    hide DocOk, ClaimOk;
  }

  lemma NotWon(r: T.Round, shard: nat, lease: int, claim: System)
    requires Offered(r) && Legal(claim, Claims(r, shard, lease))
    requires !Claimable(claim.docs, OfferedKey(r), shard, r.now)
    ensures Next(claim, Claims(r, shard, lease)).docs == claim.docs
  {
  }

  lemma AttemptIsRun(r: T.Round, shard: nat, lease: int, sendTimeout: int, s: System, o: Others,
                     timeout: Option<string -> int>)
    requires Plays(r, shard, lease, sendTimeout, s, o, timeout) && Offered(r) && Inv(s) && Won(r, shard, lease, s, o)
    requires LeaseTiming.GuardAccepts(lease, sendTimeout)
    ensures var m := MomentsOf(r, shard, lease, s, o);
            var token := r.claiming.token(0);
            var job := Leased(m.claim.docs[OfferedKey(r)], token, r.now, lease);
            && m.taken.docs == ClaimDoc(m.claim.docs, OfferedKey(r), shard, token, r.now, lease)
            && LegalIn(m.ended, Work(token, r.attempt), timeout)
            && LegalIn(m.finish, Finish(token), timeout)
            && m.finish.claims[token].job == job
            && m.finish.claims[token].phase == Held(r.attempt, Delivered(job, r.attempt))
  {
    hide Inv, Run, Exec, Delivered, Leaves, DistinctIds, Claimable, Leased;
    var m := MomentsOf(r, shard, lease, s, o);
    var token := r.claiming.token(0);
    ClaimIsRun(r, shard, lease, sendTimeout, s, o, timeout);
    WonClaim(r, shard, lease, m.claim);
    ClaimStays(m.taken, o.working, token);
    var worked := Next(m.ended, Work(token, r.attempt));
    ClaimStays(worked, o.meanwhile, token);
  }

  lemma FinishDocs(s: System, token: string)
    requires Legal(s, Finish(token))
    ensures Next(s, Finish(token)).docs == FinishDoc(s.docs, s.claims[token].job, s.claims[token].phase.updated).0
  {
  }

  lemma RoundDocs(r: T.Round, shard: nat, lease: int, p: T.Progress)
    requires Offered(r)
    ensures var w := r.claiming;
            var found := w.others(0, p.docs);
            var (q, more) := T.OneRound(r, shard, lease, p);
            if !Claimable(found, OfferedKey(r), shard, r.now) then q.docs == found && q.attempts == p.attempts && !more
            else
              var job := Leased(found[OfferedKey(r)], w.token(0), r.now, lease);
              var docs := ClaimDoc(found, OfferedKey(r), shard, w.token(0), r.now, lease);
              && q.docs == FinishDoc(r.meanwhile(docs), job, Delivered(job, r.attempt)).0
              && (q.attempts == p.attempts || q.attempts == p.attempts + [(job, r.attempt)])
  {
    hide Delivered, FinishDoc, Leased, Claimable, T.Counted;
    OneKeyClaimed(r, shard, lease, p.docs);
  }

  lemma OneKeyClaimed(r: T.Round, shard: nat, lease: int, docs: Docs)
    requires Offered(r)
    ensures var w := r.claiming;
            var found := w.others(0, docs);
            && w.Error(1).None? && w.Reached(1) == [OfferedKey(r)]
            && ClaimAll(docs, w.Reached(1), w, shard, r.now, lease)
               == ClaimDoc(found, OfferedKey(r), shard, w.token(0), r.now, lease)
            && ClaimedJobs(docs, w.Reached(1), w, shard, r.now, lease)
               == if Claimable(found, OfferedKey(r), shard, r.now)
                  then [Leased(found[OfferedKey(r)], w.token(0), r.now, lease)] else []
  {
    hide ClaimDoc, Claimable, Leased;
    var w := r.claiming;
    var keys := w.Reached(1);
    assert |keys| == 1 && keys[..0] == [] && keys[..0 + 1] == keys;
    ClaimStep(docs, keys, w, 0, shard, r.now, lease);
    assert ClaimAll(docs, keys[..0], w, shard, r.now, lease) == docs;
    assert ClaimedJobs(docs, keys[..0], w, shard, r.now, lease) == [];
  }

  lemma NothingOffered(r: T.Round, shard: nat, lease: int, p: T.Progress)
    requires !Offered(r)
    ensures var (q, more) := T.OneRound(r, shard, lease, p); q.docs == p.docs && q.attempts == p.attempts && !more
  {
  }

  // The stored attempts of a round appear among its steps.
  ghost predicate Shown(before: seq<(Job, Attempt)>, after: seq<(Job, Attempt)>, steps: seq<Step>) {
    before <= after
    && forall i :: |before| <= i < |after| ==>
         Work(after[i].0.leaseToken, after[i].1) in steps && Finish(after[i].0.leaseToken) in steps
  }

  lemma RoundIsRun(r: T.Round, shard: nat, lease: int, sendTimeout: int, p: T.Progress, s: System, o: Others,
                   timeout: Option<string -> int>)
    requires Plays(r, shard, lease, sendTimeout, s, o, timeout) && Inv(s) && p.docs == s.docs
    requires LeaseTiming.GuardAccepts(lease, sendTimeout)
    ensures var steps := Steps(r, shard, lease, s, o);
            var q := T.OneRound(r, shard, lease, p).0;
            && RunIn(s, steps, timeout) && Inv(After(s, steps)) && After(s, steps).docs == q.docs
            && Shown(p.attempts, q.attempts, steps)
  {
    hide Inv, Run, Exec, Delivered, Leaves, Leased, ClaimDoc, FinishDoc, RunIn, After, Next, Legal, LegalIn,
         T.OneRound;
    if Offered(r) {
      var m := MomentsOf(r, shard, lease, s, o);
      var token := r.claiming.token(0);
      var head := o.before + [Claims(r, shard, lease)];
      ClaimIsRun(r, shard, lease, sendTimeout, s, o, timeout);
      RoundDocs(r, shard, lease, p);
      if Won(r, shard, lease, s, o) {
        AttemptIsRun(r, shard, lease, sendTimeout, s, o, timeout);
        JoinAttempt(s, head, o, token, r.attempt, m, timeout);
        LegalOf(m.finish, Finish(token), timeout);
        FinishDocs(m.finish, token);
        TokenLeased(m.claim.docs, OfferedKey(r), token, r.now, lease);
        assert Work(token, r.attempt) in Steps(r, shard, lease, s, o) && Finish(token) in Steps(r, shard, lease, s, o);
      } else {
        NotWon(r, shard, lease, m.claim);
        assert Steps(r, shard, lease, s, o) == head;
      }
    } else {
      NothingOffered(r, shard, lease, p);
      NoSteps(s, timeout);
    }
    AfterKeepsInv(s, Steps(r, shard, lease, s, o));
  }

  lemma NoSteps(s: System, timeout: Option<string -> int>)
    ensures RunIn(s, [], timeout) && After(s, []) == s
  {
  }

  lemma LegalOf(s: System, step: Step, timeout: Option<string -> int>)
    requires LegalIn(s, step, timeout)
    ensures Legal(s, step)
  {
  }

  lemma TokenLeased(docs: Docs, key: Key, token: string, now: int, lease: int)
    ensures key in docs ==> Leased(docs[key], token, now, lease).leaseToken == token
  {
  }

  // Attempt and finish, after the claim.
  lemma JoinAttempt(s: System, head: seq<Step>, o: Others, token: string, a: Attempt, m: Moments,
                    timeout: Option<string -> int>)
    requires RunIn(s, head, timeout) && After(s, head) == m.taken && RunIn(m.taken, o.working, timeout)
    requires m.ended == After(m.taken, o.working) && LegalIn(m.ended, Work(token, a), timeout)
    requires RunIn(Next(m.ended, Work(token, a)), o.meanwhile, timeout)
    requires m.finish == After(Next(m.ended, Work(token, a)), o.meanwhile) && LegalIn(m.finish, Finish(token), timeout)
    ensures var steps := head + (o.working + [Work(token, a)] + o.meanwhile + [Finish(token)]);
            RunIn(s, steps, timeout) && After(s, steps) == Next(m.finish, Finish(token))
  {
    hide RunIn, After, Next, LegalIn;
    var one := head + o.working;
    var two := one + [Work(token, a)];
    var three := two + o.meanwhile;
    Extend(s, head, o.working, timeout);
    OneStep(m.ended, Work(token, a), timeout);
    Extend(s, one, [Work(token, a)], timeout);
    Extend(s, two, o.meanwhile, timeout);
    OneStep(m.finish, Finish(token), timeout);
    Extend(s, three, [Finish(token)], timeout);
    assert head + (o.working + [Work(token, a)] + o.meanwhile + [Finish(token)]) == three + [Finish(token)];
  }

  // ---- A tick is a run --------------------------------------------------------------------------

  // Every round that is reached is surrounded by the other parties.
  ghost predicate PlaysAll(world: nat -> T.Round, others: nat -> Others, n: nat, limit: nat, shard: nat, lease: int,
                           sendTimeout: int, p: T.Progress, s: System, timeout: Option<string -> int>)
    requires n <= limit
    decreases limit - n
  {
    n < limit ==>
      && Plays(world(n), shard, lease, sendTimeout, s, others(n), timeout)
      && var (q, more) := T.OneRound(world(n), shard, lease, p);
         more ==> PlaysAll(world, others, n + 1, limit, shard, lease, sendTimeout, q,
                           After(s, Steps(world(n), shard, lease, s, others(n))), timeout)
  }

  lemma {:induction false} TickIsRun(world: nat -> T.Round, others: nat -> Others, n: nat, limit: nat, shard: nat,
                                     lease: int, sendTimeout: int, p: T.Progress, s: System,
                                     timeout: Option<string -> int>)
    returns (steps: seq<Step>)
    requires n <= limit && PlaysAll(world, others, n, limit, shard, lease, sendTimeout, p, s, timeout)
    requires Inv(s) && p.docs == s.docs && LeaseTiming.GuardAccepts(lease, sendTimeout)
    ensures var end := T.Rounds(world, n, limit, shard, lease, p);
            && RunIn(s, steps, timeout) && After(s, steps).docs == end.docs
            && Shown(p.attempts, end.attempts, steps)
    decreases limit - n
  {
    hide Inv, Plays, T.OneRound, RunIn, After, Steps;
    if n == limit {
      steps := [];
      NoSteps(s, timeout);
    } else {
      var (q, more) := T.OneRound(world(n), shard, lease, p);
      var first := Steps(world(n), shard, lease, s, others(n));
      RoundIsRun(world(n), shard, lease, sendTimeout, p, s, others(n), timeout);
      steps := first;
      if more {
        var rest := TickIsRun(world, others, n + 1, limit, shard, lease, sendTimeout, q, After(s, first), timeout);
        Extend(s, first, rest, timeout);
        steps := first + rest;
      }
    }
  }

  // A tick that starts in a reachable state among the other parties leaves a reachable state,
  // by a run that contains its attempts: what every run keeps, it keeps.
  lemma TickInSystem(before: seq<Step>, world: nat -> T.Round, others: nat -> Others, shard: nat, limit: nat,
                     lease: int, sendTimeout: int)
    returns (steps: seq<Step>)
    requires Run(Init(), before) && LeaseTiming.GuardAccepts(T.LeaseOf(lease), T.TimeoutOf(sendTimeout))
    requires var s := Exec(Init(), before);
             PlaysAll(world, others, 0, limit, shard, T.LeaseOf(lease), T.TimeoutOf(sendTimeout),
                      T.Progress(s.docs, T.Report(0, 0, 0, 0), None, []), s, None)
    ensures var s := Exec(Init(), before);
            var begin := T.Progress(s.docs, T.Report(0, 0, 0, 0), None, []);
            var end := T.Rounds(world, 0, limit, shard, T.LeaseOf(lease), begin);
            && Run(Init(), before + steps) && Exec(Init(), before + steps).docs == end.docs
            && Shown([], end.attempts, steps)
  {
    hide Inv, Exec, Run, PlaysAll, T.Rounds;
    var s := Exec(Init(), before);
    Reachable(before);
    steps := TickIsRun(world, others, 0, limit, shard, T.LeaseOf(lease), T.TimeoutOf(sendTimeout),
                       T.Progress(s.docs, T.Report(0, 0, 0, 0), None, []), s, None);
    ExecConcat(Init(), before, steps);
  }

  // And in time, when everybody's calls return by their deadlines.
  lemma TickInTime(before: seq<Step>, world: nat -> T.Round, others: nat -> Others, shard: nat, limit: nat, lease: int,
                   sendTimeout: int, timeout: string -> int)
    returns (steps: seq<Step>)
    requires LeaseTiming.TimelyRun(Init(), before, timeout) && Run(Init(), before)
    requires LeaseTiming.GuardAccepts(T.LeaseOf(lease), T.TimeoutOf(sendTimeout))
    requires var s := Exec(Init(), before);
             PlaysAll(world, others, 0, limit, shard, T.LeaseOf(lease), T.TimeoutOf(sendTimeout),
                      T.Progress(s.docs, T.Report(0, 0, 0, 0), None, []), s, Some(timeout))
    ensures var s := Exec(Init(), before);
            var begin := T.Progress(s.docs, T.Report(0, 0, 0, 0), None, []);
            var end := T.Rounds(world, 0, limit, shard, T.LeaseOf(lease), begin);
            && Run(Init(), before + steps) && LeaseTiming.TimelyRun(Init(), before + steps, timeout)
            && Exec(Init(), before + steps).docs == end.docs && Shown([], end.attempts, steps)
  {
    hide Inv, Exec, Run, PlaysAll, T.Rounds, LeaseTiming.TimelyRun;
    var s := Exec(Init(), before);
    Reachable(before);
    steps := TickIsRun(world, others, 0, limit, shard, T.LeaseOf(lease), T.TimeoutOf(sendTimeout),
                       T.Progress(s.docs, T.Report(0, 0, 0, 0), None, []), s, Some(timeout));
    ExecConcat(Init(), before, steps);
    TimelyConcat(Init(), before, steps, timeout);
  }
}
