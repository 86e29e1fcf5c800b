/** Lease arithmetic: when calls return by their deadlines, the guard of a tick keeps every
    attempt and its finish inside the lease, so the sends of one job never overlap. */
module LeaseTiming {
  import opened Push
  import opened Recurrence
  import opened Worker
  import opened Protocol

  // What a tick demands of its settings.
  predicate GuardAccepts(lease: int, sendTimeout: int) {
    sendTimeout > 0 && lease >= sendTimeout + 30_000_000_000
  }

  // Claiming takes less than ten seconds, an attempt at most the send timeout of its worker,
  // and a finish at most twenty seconds. timeout gives the send timeout behind each token.
  ghost predicate Timely(s: System, step: Step, timeout: string -> int) {
    match step
    case TakeLease(_, _, token, _, lease) => GuardAccepts(lease, timeout(token))
    case Work(token, a) =>
      token in s.claims && a.startedAt < s.claims[token].takenAt + 10_000_000_000
      && a.endedAt <= a.startedAt + timeout(token) && s.clock == a.endedAt
    case Finish(token) =>
      token in s.claims && s.claims[token].phase.Held?
      && s.clock <= s.claims[token].phase.attempt.endedAt + 20_000_000_000
    case _ => true
  }

  ghost predicate TimelyRun(s: System, steps: seq<Step>, timeout: string -> int)
    decreases steps
  {
    steps == []
    || (Legal(s, steps[0]) && Timely(s, steps[0], timeout) && TimelyRun(Apply(s, steps[0]), steps[1..], timeout))
  }

  lemma {:induction false} TimelyRunIsRun(s: System, steps: seq<Step>, timeout: string -> int)
    requires TimelyRun(s, steps, timeout)
    ensures Run(s, steps)
    decreases steps
  {
    hide Legal, Apply, Timely;
    if steps != [] { TimelyRunIsRun(Apply(s, steps[0]), steps[1..], timeout); }
  }

  // ---- The invariant ---------------------------------------------------------------------

  // A claim of the current generation keeps the document until its lease ends, unless the
  // job is canceled, and nobody makes the job available before that.
  ghost predicate LeaseOk(s: System, token: string, c: Claim, timeout: string -> int) {
    var key := KeyOf(c.job);
    && key in s.docs && key in s.hist
    && c.job.availableAt >= c.takenAt + timeout(token) + 30_000_000_000
    && (c.phase.Held? ==> c.phase.attempt.endedAt + 20_000_000_000 < c.job.availableAt)
    && (s.hist[key].gen == c.gen ==>
          s.hist[key].writer == ByClaim(token) || s.docs[key].state == Canceled || s.clock >= c.job.availableAt)
    && (s.hist[key].gen == c.gen && s.docs[key].state == Ready ==> c.job.availableAt <= s.docs[key].availableAt)
  }

  ghost predicate RecordOk(s: System, r: SendRecord) {
    && r.token in s.used && r.takenAt <= r.startedAt <= r.endedAt && r.endedAt + 20_000_000_000 < r.leaseEnd
    && r.key in s.docs && r.key in s.hist && r.gen <= s.hist[r.key].gen
    && (s.hist[r.key].gen == r.gen && s.docs[r.key].state == Ready ==> r.endedAt < s.docs[r.key].availableAt)
  }

  ghost predicate ClaimsApart(c: Claim, d: Claim) {
    KeyOf(c.job) == KeyOf(d.job) && c.gen == d.gen ==> c.job.availableAt <= d.takenAt || d.job.availableAt <= c.takenAt
  }

  ghost predicate RecordApart(r: SendRecord, token: string, c: Claim) {
    && (r.token == token ==> c.phase.Held? && r.endedAt == c.phase.attempt.endedAt)
    && (r.token != token && r.key == KeyOf(c.job) && r.gen == c.gen ==>
          r.endedAt < c.takenAt || c.job.availableAt <= r.takenAt)
  }

  ghost predicate RecordsApart(q: SendRecord, r: SendRecord) {
    q.key == r.key && q.gen == r.gen ==> q.endedAt < r.takenAt || r.endedAt < q.takenAt
  }

  ghost predicate TimedInv(s: System, timeout: string -> int) {
    && (forall t :: t in s.claims ==> t in s.used && LeaseOk(s, t, s.claims[t], timeout))
    && (forall i :: 0 <= i < |s.sends| ==> RecordOk(s, s.sends[i]))
    && (forall t, u :: t in s.claims && u in s.claims && t != u ==> ClaimsApart(s.claims[t], s.claims[u]))
    && (forall i, t :: 0 <= i < |s.sends| && t in s.claims ==> RecordApart(s.sends[i], t, s.claims[t]))
    && (forall i, j :: 0 <= i < j < |s.sends| ==> RecordsApart(s.sends[i], s.sends[j]))
  }

  // ---- Every timely step keeps it ------------------------------------------------------------

  // A write of one key that takes no new claim, keeps the clock and only removes claims.
  lemma WriteKeeps(s: System, s': System, key: Key, timeout: string -> int)
    requires TimedInv(s, timeout) && OneKey(s, s', key) && s'.sends == s.sends && s.docs.Keys == s.hist.Keys
    requires forall t :: t in s'.claims ==> t in s.claims && s'.claims[t] == s.claims[t]
    requires forall t :: t in s'.claims && KeyOf(s'.claims[t].job) == key ==> LeaseOk(s', t, s'.claims[t], timeout)
    requires forall i :: 0 <= i < |s.sends| && s.sends[i].key == key ==> RecordOk(s', s.sends[i])
    ensures TimedInv(s', timeout)
  {
    hide RecordApart, RecordsApart, ClaimsApart;
    forall t | t in s'.claims ensures LeaseOk(s', t, s'.claims[t], timeout) {
      assert LeaseOk(s, t, s.claims[t], timeout);
    }
    forall i | 0 <= i < |s'.sends| ensures RecordOk(s', s'.sends[i]) {
      assert RecordOk(s, s.sends[i]);
    }
  }

  // A Put starts a newer generation, and a cancelled job is not available at all.
  lemma SupersedeKeeps(s: System, s': System, key: Key, timeout: string -> int)
    requires TimedInv(s, timeout) && OneKey(s, s', key) && s'.sends == s.sends && s'.claims == s.claims
    requires s.docs.Keys == s.hist.Keys && key in s'.docs
    requires key in s.hist ==> s.hist[key].gen < s'.hist[key].gen
                               || (s.hist[key].gen == s'.hist[key].gen && s'.docs[key].state == Canceled)
    requires forall t :: t in s.claims && key in s.hist && KeyOf(s.claims[t].job) == key ==>
               s.claims[t].gen <= s.hist[key].gen
    ensures TimedInv(s', timeout)
  {
    hide RecordApart, RecordsApart, ClaimsApart;
    forall t | t in s'.claims && KeyOf(s'.claims[t].job) == key ensures LeaseOk(s', t, s'.claims[t], timeout) {
      assert LeaseOk(s, t, s.claims[t], timeout);
    }
    forall i | 0 <= i < |s.sends| && s.sends[i].key == key ensures RecordOk(s', s.sends[i]) {
      assert RecordOk(s, s.sends[i]);
    }
    WriteKeeps(s, s', key, timeout);
  }

  // The claim that still holds the document is the latest: everything else of its
  // generation was over before it was taken.
  lemma HolderIsLatest(s: System, token: string, timeout: string -> int)
    requires Inv(s) && TimedInv(s, timeout) && token in s.claims && KeyOf(s.claims[token].job) in s.hist
    requires s.hist[KeyOf(s.claims[token].job)].writer == ByClaim(token)
    ensures var c := s.claims[token];
            && (forall t ::
                  t in s.claims && t != token && KeyOf(s.claims[t].job) == KeyOf(c.job) && s.claims[t].gen == c.gen
                  ==> s.claims[t].job.availableAt <= c.takenAt)
            && (forall i ::
                  0 <= i < |s.sends| && s.sends[i].token != token && s.sends[i].key == KeyOf(c.job)
                  && s.sends[i].gen == c.gen
                  ==> s.sends[i].endedAt < c.takenAt)
  {
    hide RecordsApart, Sound, DistinctIds, Delivered, DocOk;
    var c := s.claims[token];
    assert ClaimOk(s, token, c);
    forall t | t in s.claims && t != token && KeyOf(s.claims[t].job) == KeyOf(c.job) && s.claims[t].gen == c.gen
      ensures s.claims[t].job.availableAt <= c.takenAt
    {
      assert ClaimOk(s, t, s.claims[t]) && LeaseOk(s, t, s.claims[t], timeout) && ClaimsApart(s.claims[t], c);
    }
    forall i | 0 <= i < |s.sends| && s.sends[i].token != token && s.sends[i].key == KeyOf(c.job)
               && s.sends[i].gen == c.gen
      ensures s.sends[i].endedAt < c.takenAt
    {
      assert RecordOk(s, s.sends[i]) && RecordApart(s.sends[i], token, c);
    }
  }

  lemma TakeKeeps(s: System, key: Key, shard: nat, token: string, now: int, lease: int, timeout: string -> int)
    requires Inv(s) && TimedInv(s, timeout) && Legal(s, TakeLease(key, shard, token, now, lease))
    requires GuardAccepts(lease, timeout(token))
    ensures TimedInv(ApplyTake(s, key, shard, token, now, lease), timeout)
  {
    hide DocOk, Sound, Delivered, DistinctIds, RecordsApart;
    var s' := ApplyTake(s, key, shard, token, now, lease);
    if Claimable(s.docs, key, shard, now) {
      LeasedDoc(s, key, shard, token, now, lease);
      forall t | t in s'.claims ensures t in s'.used && LeaseOk(s', t, s'.claims[t], timeout) {
        if t != token { TakenFrom(s, key, t, shard, token, now, lease, timeout); }
      }
      forall i | 0 <= i < |s'.sends| ensures RecordOk(s', s'.sends[i]) {
        assert RecordOk(s, s.sends[i]);
      }
      forall t, u | t in s'.claims && u in s'.claims && t != u ensures ClaimsApart(s'.claims[t], s'.claims[u]) {
        if t != token { TakenFrom(s, key, t, shard, token, now, lease, timeout); }
        if u != token { TakenFrom(s, key, u, shard, token, now, lease, timeout); }
        if t != token && u != token { assert ClaimsApart(s.claims[t], s.claims[u]); }
      }
      forall i, t | 0 <= i < |s'.sends| && t in s'.claims ensures RecordApart(s'.sends[i], t, s'.claims[t]) {
        assert RecordOk(s, s.sends[i]);
        if t != token { assert RecordApart(s.sends[i], t, s.claims[t]); }
      }
    } else {
      UsedKeeps(s, s', timeout);
    }
  }

  // What a claim means for the claims it finds.
  lemma TakenFrom(s: System, key: Key, t: string, shard: nat, token: string, now: int, lease: int,
                  timeout: string -> int)
    requires Inv(s) && TimedInv(s, timeout) && Legal(s, TakeLease(key, shard, token, now, lease)) && t in s.claims
    requires Claimable(s.docs, key, shard, now)
    ensures t in s.used && t != token && t in ApplyTake(s, key, shard, token, now, lease).claims
    ensures LeaseOk(ApplyTake(s, key, shard, token, now, lease), t, s.claims[t], timeout)
    ensures KeyOf(s.claims[t].job) == key && s.claims[t].gen == GenOf(s, key) ==> s.claims[t].job.availableAt <= now
  {
    hide DocOk, Sound, Delivered, DistinctIds, RecordsApart, RecordApart, RecordOk, ClaimsApart;
    assert ClaimOk(s, t, s.claims[t]) && LeaseOk(s, t, s.claims[t], timeout);
  }

  lemma UsedKeeps(s: System, s': System, timeout: string -> int)
    requires TimedInv(s, timeout) && s.used <= s'.used && s.clock <= s'.clock
             && s' == s.(used := s'.used, clock := s'.clock)
    ensures TimedInv(s', timeout)
  {
  }

  lemma WorkClaims(s: System, token: string, a: Attempt, timeout: string -> int)
    requires Inv(s) && TimedInv(s, timeout) && Legal(s, Work(token, a)) && Timely(s, Work(token, a), timeout)
    ensures var s' := ApplyWork(s, token, a);
            && (forall t :: t in s'.claims ==> t in s'.used && LeaseOk(s', t, s'.claims[t], timeout))
            && (forall t, u :: t in s'.claims && u in s'.claims && t != u ==> ClaimsApart(s'.claims[t], s'.claims[u]))
  {
    hide DocOk, Sound, Delivered, DistinctIds, IdsSent, RecordOk, RecordApart, RecordsApart;
    var s' := ApplyWork(s, token, a);
    forall t | t in s'.claims ensures t in s'.used && LeaseOk(s', t, s'.claims[t], timeout) {
      assert LeaseOk(s, t, s.claims[t], timeout) && LeaseOk(s, token, s.claims[token], timeout);
    }
    forall t, u | t in s'.claims && u in s'.claims && t != u ensures ClaimsApart(s'.claims[t], s'.claims[u]) {
      assert ClaimsApart(s.claims[t], s.claims[u]);
    }
  }

  lemma NoOverlap(s: System, i: nat, t: string, token: string, timeout: string -> int)
    requires TimedInv(s, timeout) && t in s.claims && token in s.claims
    ensures i < |s.sends| ==> RecordApart(s.sends[i], token, s.claims[token])
    ensures t != token ==> ClaimsApart(s.claims[token], s.claims[t])
  {
  }

  // The record an attempt adds, and that nothing else of its generation meets it.
  lemma WorkRecord(s: System, token: string, a: Attempt, timeout: string -> int)
    requires Inv(s) && TimedInv(s, timeout) && Legal(s, Work(token, a)) && Timely(s, Work(token, a), timeout)
    ensures var s' := ApplyWork(s, token, a);
            var r := s'.sends[|s.sends|];
            && RecordOk(s', r)
            && (forall i :: 0 <= i < |s.sends| ==> RecordsApart(s.sends[i], r))
            && (forall t :: t in s'.claims ==> RecordApart(r, t, s'.claims[t]))
  {
    hide DocOk, Sound, Delivered, DistinctIds, IdsSent;
    var s' := ApplyWork(s, token, a);
    var c := s.claims[token];
    var r := s'.sends[|s.sends|];
    assert ClaimOk(s, token, c) && LeaseOk(s, token, c, timeout);
    assert RecordOk(s', r);
    hide TimedInv, ClaimOk, Inv;
    forall i | 0 <= i < |s.sends| ensures RecordsApart(s.sends[i], r) {
      NoOverlap(s, i, token, token, timeout);
    }
    forall t | t in s'.claims ensures RecordApart(r, t, s'.claims[t]) {
      if t != token { NoOverlap(s, 0, t, token, timeout); }
    }
  }

  lemma WorkKeeps(s: System, token: string, a: Attempt, timeout: string -> int)
    requires Inv(s) && TimedInv(s, timeout) && Legal(s, Work(token, a)) && Timely(s, Work(token, a), timeout)
    ensures TimedInv(ApplyWork(s, token, a), timeout)
  {
    hide Inv, Delivered, DistinctIds, IdsSent, ClaimsApart, RecordsApart, LeaseOk;
    var s' := ApplyWork(s, token, a);
    var n := |s.sends|;
    WorkClaims(s, token, a, timeout);
    WorkRecord(s, token, a, timeout);
    forall i | 0 <= i < |s'.sends| ensures RecordOk(s', s'.sends[i]) {
      if i < n { assert RecordOk(s, s.sends[i]); }
    }
    forall i, t | 0 <= i < |s'.sends| && t in s'.claims ensures RecordApart(s'.sends[i], t, s'.claims[t]) {
      if i < n { assert RecordApart(s.sends[i], t, s.claims[t]); }
    }
    forall i, j | 0 <= i < j < |s'.sends| ensures RecordsApart(s'.sends[i], s'.sends[j]) {
      if j < n { assert RecordsApart(s.sends[i], s.sends[j]); }
    }
  }

  lemma FinishedKeeps(s: System, token: string, timeout: string -> int)
    requires Inv(s) && TimedInv(s, timeout) && Legal(s, Finish(token)) && HoldsLease(s.docs, s.claims[token].job)
    ensures var s' := ApplyFinish(s, token);
            var key := KeyOf(s.claims[token].job);
            && OneKey(s, s', key) && s'.sends == s.sends && s'.claims == s.claims - {token}
            && (forall t :: t in s'.claims && KeyOf(s'.claims[t].job) == key ==> LeaseOk(s', t, s'.claims[t], timeout))
            && (forall i :: 0 <= i < |s.sends| && s.sends[i].key == key ==> RecordOk(s', s.sends[i]))
  {
    hide DocOk, Sound, Delivered, DistinctIds, AfterFinish, RecordApart, RecordsApart, ClaimsApart, HoldsLease,
         EndingOf, TimedInv, Inv;
    var c := s.claims[token];
    var key := KeyOf(c.job);
    var s' := ApplyFinish(s, token);
    HeldDoc(s, token);
    HolderIsLatest(s, token, timeout);
    AttemptEnds(c.job, c.phase.attempt);
    AvailableLater(c.job, c.phase.attempt);
    AfterFinishWriter(s.hist[key], token, c.job, c.phase.attempt);
    ClaimFacts(s, token, timeout);
    forall t | t in s'.claims && KeyOf(s'.claims[t].job) == key ensures LeaseOk(s', t, s'.claims[t], timeout) {
      ClaimFacts(s, t, timeout);
    }
    forall i | 0 <= i < |s.sends| && s.sends[i].key == key ensures RecordOk(s', s.sends[i]) {
      OwnRecord(s, token, i, timeout);
    }
  }

  lemma ClaimFacts(s: System, t: string, timeout: string -> int)
    requires Inv(s) && TimedInv(s, timeout) && t in s.claims
    ensures LeaseOk(s, t, s.claims[t], timeout)
    ensures ClaimOk(s, t, s.claims[t])
  {
  }

  lemma FinishKeeps(s: System, token: string, timeout: string -> int)
    requires Inv(s) && TimedInv(s, timeout) && Legal(s, Finish(token))
    ensures TimedInv(ApplyFinish(s, token), timeout)
  {
    hide DocOk, ClaimOk, LeaseOk, Delivered, DistinctIds, AfterFinish, TimedInv, HoldsLease;
    var c := s.claims[token];
    if HoldsLease(s.docs, c.job) {
      FinishedKeeps(s, token, timeout);
      WriteKeeps(s, ApplyFinish(s, token), KeyOf(c.job), timeout);
    } else {
      CrashKeeps(s, token, timeout);
    }
  }

  lemma OwnRecord(s: System, token: string, i: nat, timeout: string -> int)
    requires TimedInv(s, timeout) && token in s.claims && i < |s.sends|
    ensures s.sends[i].token == token ==>
              s.claims[token].phase.Held? && s.sends[i].endedAt == s.claims[token].phase.attempt.endedAt
    ensures RecordOk(s, s.sends[i])
  {
  }

  // An attempt leaves a ready job available only after its own end.
  lemma AvailableLater(job: Job, a: Attempt)
    requires Sound(job) && job.state == Ready && Timed(job, a)
    ensures Delivered(job, a).state == Ready ==> Delivered(job, a).availableAt > a.endedAt
    ensures Delivered(job, a).state != Canceled
  {
    hide Delivered, EndingOf, Sound, IsNext;
    AttemptEnds(job, a);
  }

  lemma CrashKeeps(s: System, token: string, timeout: string -> int)
    requires TimedInv(s, timeout)
    ensures TimedInv(s.(claims := s.claims - {token}), timeout)
  {
  }

  lemma PutKeeps(s: System, job: Job, put: Submission, timeout: string -> int)
    requires Inv(s) && TimedInv(s, timeout)
    ensures TimedInv(ApplyPut(s, job, put), timeout)
  {
    hide DocOk, Sound, Delivered, DistinctIds, TimedInv;
    forall t | t in s.claims && KeyOf(job) in s.hist && KeyOf(s.claims[t].job) == KeyOf(job)
      ensures s.claims[t].gen <= s.hist[KeyOf(job)].gen
    {
      assert ClaimOk(s, t, s.claims[t]);
    }
    SupersedeKeeps(s, ApplyPut(s, job, put), KeyOf(job), timeout);
  }

  lemma CancelKeeps(s: System, key: Key, now: int, timeout: string -> int)
    requires Inv(s) && TimedInv(s, timeout)
    ensures TimedInv(Apply(s, Cancel(key, now)), timeout)
  {
    hide DocOk, Sound, Delivered, DistinctIds, TimedInv;
    if key in s.docs {
      forall t | t in s.claims && KeyOf(s.claims[t].job) == key ensures s.claims[t].gen <= s.hist[key].gen {
        assert ClaimOk(s, t, s.claims[t]);
      }
      SupersedeKeeps(s, Apply(s, Cancel(key, now)), key, timeout);
    }
  }

  lemma TimelyStep(s: System, step: Step, timeout: string -> int)
    requires Inv(s) && TimedInv(s, timeout) && Legal(s, step) && Timely(s, step, timeout)
    ensures Inv(Apply(s, step)) && TimedInv(Apply(s, step), timeout)
  {
    hide Inv, TimedInv, ApplyPut, ApplyTake, ApplyWork, ApplyFinish, NewJob, DistinctIds;
    StepKeepsInv(s, step);
    match step
    case Put(uid, id, daily, at, message, shard, now) =>
      var job := NewJob(uid, id, daily, at, message, shard, now);
      if job.Some? { PutKeeps(s, job.value, Submission(daily, at, message, shard, now), timeout); }
    case Cancel(key, now) => CancelKeeps(s, key, now, timeout);
    case Advance(to) => UsedKeeps(s, s.(clock := to), timeout);
    case TakeLease(key, shard, token, now, lease) => TakeKeeps(s, key, shard, token, now, lease, timeout);
    case Work(token, a) => WorkKeeps(s, token, a, timeout);
    case Finish(token) => FinishKeeps(s, token, timeout);
    case Crash(token) => CrashKeeps(s, token, timeout);
  }

  lemma {:induction false} TimelyRunKeeps(s: System, steps: seq<Step>, timeout: string -> int)
    requires Inv(s) && TimedInv(s, timeout) && TimelyRun(s, steps, timeout)
    ensures Run(s, steps) && Inv(Exec(s, steps)) && TimedInv(Exec(s, steps), timeout)
    decreases steps
  {
    hide Inv, TimedInv, Legal, Apply, Timely;
    if steps != [] {
      TimelyStep(s, steps[0], timeout);
      TimelyRunKeeps(Apply(s, steps[0]), steps[1..], timeout);
    }
  }

  lemma TimelyReachable(steps: seq<Step>, timeout: string -> int)
    requires TimelyRun(Init(), steps, timeout)
    ensures Run(Init(), steps) && Inv(Exec(Init(), steps)) && TimedInv(Exec(Init(), steps), timeout)
  {
    hide TimelyRun, Run, Exec;
    assert Inv(Init()) && TimedInv(Init(), timeout);
    TimelyRunKeeps(Init(), steps, timeout);
  }

  // ---- What it gives --------------------------------------------------------------------------

  // The sends of two claims of one Put generation never overlap, and every send, with the
  // time its finish may take, is over before the lease ends.
  lemma SendsNeverOverlap(steps: seq<Step>, timeout: string -> int, i: nat, j: nat)
    requires TimelyRun(Init(), steps, timeout) && Run(Init(), steps)
    requires i < j < |Exec(Init(), steps).sends|
    ensures var q, r := Exec(Init(), steps).sends[i], Exec(Init(), steps).sends[j];
            && q.takenAt <= q.startedAt <= q.endedAt && q.endedAt + 20_000_000_000 < q.leaseEnd
            && (q.key == r.key && q.gen == r.gen ==> q.endedAt < r.startedAt || r.endedAt < q.startedAt)
  {
    hide TimelyRun, Run, Exec, Inv;
    TimelyReachable(steps, timeout);
    var s := Exec(Init(), steps);
    assert RecordOk(s, s.sends[i]) && RecordOk(s, s.sends[j]) && RecordsApart(s.sends[i], s.sends[j]);
  }

  // A finish in time happens before the job is available again, and is refused exactly when
  // the job was put again or canceled since the claim.
  lemma LostOnlyToPutOrCancel(steps: seq<Step>, timeout: string -> int, token: string)
    requires TimelyRun(Init(), steps, timeout) && Run(Init(), steps)
    requires var s := Exec(Init(), steps); Legal(s, Finish(token)) && Timely(s, Finish(token), timeout)
    ensures var s := Exec(Init(), steps);
            var c := s.claims[token];
            var key := KeyOf(c.job);
            && s.clock < c.job.availableAt && key in s.docs && key in s.hist
            && (FinishDoc(s.docs, c.job, c.phase.updated).1 != None <==>
                  s.hist[key].gen > c.gen || s.docs[key].state == Canceled)
  {
    hide TimelyRun, Run, Exec, DocOk, Sound, Delivered, DistinctIds;
    TimelyReachable(steps, timeout);
    var s := Exec(Init(), steps);
    var c := s.claims[token];
    assert ClaimOk(s, token, c) && LeaseOk(s, token, c, timeout);
    HolderIsLastWriter(s, token);
    if HoldsLease(s.docs, c.job) {
      HeldDoc(s, token);
      AttemptEnds(c.job, c.phase.attempt);
    }
  }

  // An attempt whose calls all return by their deadlines.
  predicate InTime(sendTimeout: int, taken: int, started: int, ended: int, finished: int) {
    taken <= started < taken + 10_000_000_000 && started <= ended <= started + sendTimeout
    && ended <= finished <= ended + 20_000_000_000
  }

  // The guard is exact: it accepts just the settings under which every attempt in time is
  // finished before its lease ends.
  lemma GuardIsExact(sendTimeout: int, lease: int)
    requires sendTimeout > 0
    ensures GuardAccepts(lease, sendTimeout) <==>
            (forall taken: int, started: int, ended: int, finished: int ::
               InTime(sendTimeout, taken, started, ended, finished) ==> finished < taken + lease)
  {
    if lease < sendTimeout + 30_000_000_000 {
      assert InTime(sendTimeout, 0, 9_999_999_999, 9_999_999_999 + sendTimeout, 29_999_999_999 + sendTimeout);
    }
  }
}
