/** What is announced: over every run the stored job stays what was put, and each message
    given to the sender is the one that was put, marked with its occurrence. */
module Announcements {
  import opened Push
  import opened Recurrence
  import opened Worker
  import opened Protocol

  // The parts of a stored job that are as submitted.
  ghost predicate AsPut(job: Job, put: Submission) {
    job.daily == put.daily && job.message == put.message && job.shard == put.shard
    && (put.daily.None? ==> job.dueAt == put.at)
  }

  // The submitted message, with what it leaves open filled in.
  ghost predicate Announces(m: Message, submitted: Message) {
    && m.content == submitted.content
    && m.app == (if submitted.app != "" then submitted.app else "default")
    && m.kind == (if submitted.kind != "" then submitted.kind else "scheduled")
    && m.analyticsLabel == (if submitted.analyticsLabel != "" then submitted.analyticsLabel else "scheduled")
    && m.ttl == (if submitted.ttl != 0 then submitted.ttl else 3_600_000_000_000)
  }

  ghost predicate ClaimAsPut(s: System, c: Claim) {
    KeyOf(c.job) in s.hist && c.gen <= s.hist[KeyOf(c.job)].gen
    && (c.gen == s.hist[KeyOf(c.job)].gen ==> AsPut(c.job, s.hist[KeyOf(c.job)].put))
  }

  ghost predicate SendAsPut(s: System, r: SendRecord) {
    r.key in s.hist && r.gen <= s.hist[r.key].gen
    && r.message.notificationId == OccurrenceId(r.key.uid, r.key.id, r.dueAt)
    && (r.gen == s.hist[r.key].gen ==> Announces(r.message, s.hist[r.key].put.message))
  }

  ghost predicate Faithful(s: System) {
    && (forall key :: key in s.docs && key in s.hist ==> AsPut(s.docs[key], s.hist[key].put))
    && (forall t :: t in s.claims ==> ClaimAsPut(s, s.claims[t]))
    && (forall i :: 0 <= i < |s.sends| ==> SendAsPut(s, s.sends[i]))
  }

  // What the sender is given for a job.
  lemma AnnouncedIs(job: Job)
    ensures Announces(Announced(job), job.message)
    ensures Announced(job).notificationId == OccurrenceId(job.recipientId, job.id, job.dueAt)
  {
  }

  // An attempt depends on the sender only through its answer to that message, for the
  // targets found that are not completed, and on the cleanup only through its answer to the
  // references it holds.
  lemma DeliveredDependsOn(job: Job, a: Attempt, b: Attempt)
    requires b == a.(send := b.send, cleanupFails := b.cleanupFails)
    requires forall m, targets ::
               Announces(m, job.message) && m.notificationId == OccurrenceId(job.recipientId, job.id, job.dueAt)
               && (forall t :: t in targets <==> a.lookup.Some? && t in a.lookup.value && t.id !in job.completed) ==>
                 a.send(m, targets) == b.send(m, targets)
    requires forall refs :: refs == TallyOf(job, a).refs && refs != [] ==> a.cleanupFails(refs) == b.cleanupFails(refs)
    ensures Delivered(job, a) == Delivered(job, b)
  {
    hide Announced, Announces, CountAll, Pending;
    AnnouncedIs(job);
    assert a.send(Announced(job), Sent(job, a)) == b.send(Announced(job), Sent(job, a));
  }

  // A put stores just what was submitted, due at its instant or at the next occurrence of
  // its series, and touches no other job; a series without a next occurrence is refused.
  lemma PutStores(s: System, uid: string, id: string, daily: Option<Daily>, at: int, message: Message, shard: nat,
                  now: int)
    ensures var s' := Apply(s, Put(uid, id, daily, at, message, shard, now));
            var key := Key(uid, id);
            if daily.Some? && IsNext(daily.value, now, None) then s'.docs == s.docs
            else
              && s'.docs.Keys == s.docs.Keys + {key}
              && (forall k :: k in s.docs && k != key ==> s'.docs[k] == s.docs[k])
              && var job := s'.docs[key];
                 && job == Job(id, uid, daily, message, Ready, shard, job.dueAt, job.dueAt, "", 0, [], [], "", false,
                               now)
                 && (if daily.Some? then IsNext(daily.value, now, Some(job.dueAt)) else job.dueAt == at)
  {
    hide IsNext;
    if daily.Some? && IsNext(daily.value, now, None) {
      NextIsUnique(daily.value, now, None, NextDue(daily.value, now));
    }
  }

  // A cancel marks the job and takes its claim away; nothing else changes.
  lemma CancelMarks(docs: Docs, key: Key, now: int)
    ensures var after := CancelDoc(docs, key, now);
            && after.Keys == docs.Keys && (forall k :: k in docs && k != key ==> after[k] == docs[k])
            && (key in docs ==> after[key] == docs[key].(state := Canceled, leaseToken := "", updatedAt := now))
  {
  }

  // A finish stores the update exactly when the document is still the claim's and the update
  // is for the same job; a lost lease is reported before a changed identity.
  lemma FinishStores(docs: Docs, claimed: Job, updated: Job)
    ensures var key := Key(claimed.recipientId, claimed.id);
            var (after, err) := FinishDoc(docs, claimed, updated);
            var held := key in docs && claimed.leaseToken != "" && docs[key].leaseToken == claimed.leaseToken
                        && docs[key].state == Ready;
            && (err == Some(LeaseLost) <==> !held)
            && (err == Some(IdentityChanged) <==>
                  held && (updated.id != docs[key].id || updated.recipientId != docs[key].recipientId))
            && after == (if err.None? then docs[key := updated] else docs)
  {
  }

  // ---- Every step keeps it -------------------------------------------------------------------

  // A write of one key in its generation, or in a newer one with a new submission.
  lemma OthersFaithful(s: System, s': System, key: Key)
    requires Faithful(s) && s.docs.Keys == s.hist.Keys && OneKey(s, s', key) && key in s'.docs && s'.sends == s.sends
    requires forall t :: t in s'.claims ==> t in s.claims && s'.claims[t] == s.claims[t]
    requires AsPut(s'.docs[key], s'.hist[key].put)
    requires key in s.hist ==> s.hist[key].gen < s'.hist[key].gen
                               || (s.hist[key].gen == s'.hist[key].gen && s.hist[key].put == s'.hist[key].put)
    ensures Faithful(s')
  {
    hide AsPut, Announces;
    forall t | t in s'.claims ensures ClaimAsPut(s', s'.claims[t]) {
      assert ClaimAsPut(s, s.claims[t]);
    }
    forall i | 0 <= i < |s'.sends| ensures SendAsPut(s', s'.sends[i]) {
      assert SendAsPut(s, s.sends[i]);
    }
  }

  lemma PutFaithful(s: System, uid: string, id: string, daily: Option<Daily>, at: int, message: Message, shard: nat,
                    now: int)
    requires Inv(s) && Faithful(s)
    ensures Faithful(Apply(s, Put(uid, id, daily, at, message, shard, now)))
  {
    hide DocOk, ClaimOk, Faithful;
    var job := NewJob(uid, id, daily, at, message, shard, now);
    if job.Some? {
      OthersFaithful(s, Apply(s, Put(uid, id, daily, at, message, shard, now)), KeyOf(job.value));
    }
  }

  lemma CancelFaithful(s: System, key: Key, now: int)
    requires Inv(s) && Faithful(s)
    ensures Faithful(Apply(s, Cancel(key, now)))
  {
    hide DocOk, ClaimOk;
    if key in s.docs { OthersFaithful(s, Apply(s, Cancel(key, now)), key); }
  }

  lemma TakeFaithful(s: System, key: Key, shard: nat, token: string, now: int, lease: int)
    requires Inv(s) && Faithful(s) && Legal(s, TakeLease(key, shard, token, now, lease))
    ensures Faithful(ApplyTake(s, key, shard, token, now, lease))
  {
    hide DocOk, ClaimOk, Announces, AsPut, ClaimAsPut, SendAsPut, Leased;
    var s' := ApplyTake(s, key, shard, token, now, lease);
    if Claimable(s.docs, key, shard, now) {
      LeasedAsPut(s.docs[key], s.hist[key].put, token, now, lease);
      var middle := s'.(claims := s.claims);
      OthersFaithful(s, middle, key);
      forall t | t in s'.claims ensures ClaimAsPut(s', s'.claims[t]) {
        if t == token { TakenAsPut(s, key, shard, token, now, lease); } else { SameClaim(middle, s', t); }
      }
      forall i | 0 <= i < |s'.sends| ensures SendAsPut(s', s'.sends[i]) {
        SameSend(middle, s', i);
      }
    } else {
      SameRecords(s, s');
    }
  }

  lemma LeasedAsPut(job: Job, put: Submission, token: string, now: int, lease: int)
    ensures AsPut(job, put) ==> AsPut(Leased(job, token, now, lease), put)
  {
  }

  lemma TakenAsPut(s: System, key: Key, shard: nat, token: string, now: int, lease: int)
    requires Inv(s) && Faithful(s) && Legal(s, TakeLease(key, shard, token, now, lease))
    requires Claimable(s.docs, key, shard, now)
    ensures var s' := ApplyTake(s, key, shard, token, now, lease);
            token in s'.claims && ClaimAsPut(s', s'.claims[token])
  {
    hide DocOk, ClaimOk, Announces, AsPut;
    LeasedDoc(s, key, shard, token, now, lease);
    LeasedAsPut(s.docs[key], s.hist[key].put, token, now, lease);
  }

  lemma SameClaim(s: System, s': System, t: string)
    requires s == s'.(claims := s.claims) && t in s.claims && t in s'.claims && s.claims[t] == s'.claims[t]
    ensures ClaimAsPut(s, s.claims[t]) ==> ClaimAsPut(s', s'.claims[t])
  {
    hide AsPut;
  }

  lemma SameSend(s: System, s': System, i: nat)
    requires s == s'.(claims := s.claims) && i < |s.sends|
    ensures SendAsPut(s, s.sends[i]) ==> SendAsPut(s', s'.sends[i])
  {
    hide Announces;
  }

  // Only the clock, the tokens used, or fewer claims.
  lemma SameRecords(s: System, s': System)
    requires Faithful(s) && s'.docs == s.docs && s'.hist == s.hist && s'.sends == s.sends
    requires forall t :: t in s'.claims ==> t in s.claims && s'.claims[t] == s.claims[t]
    ensures Faithful(s')
  {
    hide AsPut, Announces;
    forall t | t in s'.claims ensures ClaimAsPut(s', s'.claims[t]) {
      assert ClaimAsPut(s, s.claims[t]);
    }
    forall i | 0 <= i < |s'.sends| ensures SendAsPut(s', s'.sends[i]) {
      assert SendAsPut(s, s.sends[i]);
    }
  }

  lemma WorkFaithful(s: System, token: string, a: Attempt)
    requires Faithful(s) && Legal(s, Work(token, a))
    ensures Faithful(ApplyWork(s, token, a))
  {
    hide Delivered, Announced, IdsSent, DistinctIds;
    var s' := ApplyWork(s, token, a);
    var c := s.claims[token];
    AnnouncedIs(c.job);
    assert ClaimAsPut(s, c);
    forall t | t in s'.claims ensures ClaimAsPut(s', s'.claims[t]) {
      assert ClaimAsPut(s, s.claims[t]);
    }
    forall i | 0 <= i < |s'.sends| ensures SendAsPut(s', s'.sends[i]) {
      if i < |s.sends| { assert SendAsPut(s, s.sends[i]); }
    }
  }

  lemma FinishFaithful(s: System, token: string)
    requires Inv(s) && Faithful(s) && Legal(s, Finish(token))
    ensures Faithful(ApplyFinish(s, token))
  {
    hide Delivered, DocOk, Sound, DistinctIds, EndingOf, Reports, DisabledBy, ReportsPermanent, HoldsLease, IsNext;
    var c := s.claims[token];
    var s' := ApplyFinish(s, token);
    if HoldsLease(s.docs, c.job) {
      HeldDoc(s, token);
      AttemptEnds(c.job, c.phase.attempt);
      OneOffNotAdvanced(c.job, c.phase.attempt);
      OthersFaithful(s, s', KeyOf(c.job));
    } else {
      SameRecords(s, s');
    }
  }

  lemma OneOffNotAdvanced(job: Job, a: Attempt)
    ensures job.daily.None? ==> !EndingOf(job, a).Advanced?
  {
  }

  lemma StepKeepsFaithful(s: System, step: Step)
    requires Inv(s) && Faithful(s) && Legal(s, step)
    ensures Faithful(Apply(s, step))
  {
    hide Inv, Faithful, ApplyPut, ApplyTake, ApplyWork, ApplyFinish, NewJob, DistinctIds;
    match step
    case Put(uid, id, daily, at, message, shard, now) => PutFaithful(s, uid, id, daily, at, message, shard, now);
    case Cancel(key, now) => CancelFaithful(s, key, now);
    case Advance(to) => SameRecords(s, s.(clock := to));
    case TakeLease(key, shard, token, now, lease) => TakeFaithful(s, key, shard, token, now, lease);
    case Work(token, a) => WorkFaithful(s, token, a);
    case Finish(token) => FinishFaithful(s, token);
    case Crash(token) => SameRecords(s, s.(claims := s.claims - {token}));
  }

  lemma {:induction false} RunKeepsFaithful(s: System, steps: seq<Step>)
    requires Inv(s) && Faithful(s) && Run(s, steps)
    ensures Faithful(Exec(s, steps))
    decreases steps
  {
    hide Inv, Faithful, Legal, Apply;
    if steps != [] {
      StepKeepsInv(s, steps[0]);
      StepKeepsFaithful(s, steps[0]);
      RunKeepsFaithful(Apply(s, steps[0]), steps[1..]);
    }
  }

  // ---- What it gives ---------------------------------------------------------------------------

  // A stored job keeps the series, message and shard it was put with, and a one-off its
  // instant.
  lemma StaysAsPut(steps: seq<Step>, key: Key)
    requires Run(Init(), steps) && key in Exec(Init(), steps).docs
    ensures var s := Exec(Init(), steps);
            key in s.hist && AsPut(s.docs[key], s.hist[key].put) && KeyOf(s.docs[key]) == key
  {
    hide Run, Exec, DocOk;
    Reachable(steps);
    RunKeepsFaithful(Init(), steps);
    Keyed(Exec(Init(), steps), key);
  }

  lemma Keyed(s: System, key: Key)
    requires Inv(s) && key in s.docs
    ensures KeyOf(s.docs[key]) == key
  {
    hide OccursAt, LocalDate, ClaimOk;
    assert DocOk(key, s.docs[key], s.hist[key], s.used);
  }

  // Each message given to the sender is the submitted one, and two of them carry the same
  // notification id exactly when they announce the same occurrence of the same job.
  lemma MessagesTellOccurrences(steps: seq<Step>, i: nat, j: nat)
    requires Run(Init(), steps) && i < |Exec(Init(), steps).sends| && j < |Exec(Init(), steps).sends|
    ensures var s := Exec(Init(), steps);
            var q, r := s.sends[i], s.sends[j];
            && (q.message.notificationId == r.message.notificationId <==> q.key == r.key && q.dueAt == r.dueAt)
            && q.key in s.hist && q.gen <= s.hist[q.key].gen
            && (q.gen == s.hist[q.key].gen ==> Announces(q.message, s.hist[q.key].put.message))
  {
    hide Run, Exec;
    RunKeepsFaithful(Init(), steps);
    var s := Exec(Init(), steps);
    assert SendAsPut(s, s.sends[i]) && SendAsPut(s, s.sends[j]);
  }
}
