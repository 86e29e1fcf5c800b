/** One claimed attempt of a scheduled job: who is still to be sent, what the results
    acknowledge, and which state the job is left in. */
module Worker {
  import opened Push
  import opened Recurrence

  const MAX_ATTEMPTS: nat := 5
  const SHARD_COUNT: nat := 32

  datatype JobState = Ready | Done | Failed | Canceled

  // A notification id is a digest of the occurrence; the digest is represented by what it
  // is taken over.
  datatype NotificationId = Unset | OccurrenceId(uid: string, id: string, dueAt: int)

  // content stands for title, body, data and platform fields, which are passed through.
  datatype Message = Message(content: string, notificationId: NotificationId, app: string, kind: string,
                             analyticsLabel: string, ttl: int)

  datatype Job = Job(
    id: string, recipientId: string, daily: Option<Daily>, message: Message, state: JobState, shard: nat,
    dueAt: int, availableAt: int, leaseToken: string, attempts: nat, completed: seq<string>,
    invalidTargets: seq<string>, lastError: string, hasPermanentFailure: bool, updatedAt: int)

  datatype SendReply = SendReply(results: seq<TargetResult>, failed: bool)

  // Everything outside the worker during one attempt: the clock readings, the target
  // lookup (None when it fails), the sender, and whether retiring installations fails.
  datatype Attempt = Attempt(
    startedAt: int, lookup: Option<seq<Target>>, send: (Message, seq<Target>) -> SendReply,
    cleanupFails: seq<Ref> -> bool, endedAt: int)

  function MessageForOccurrence(m: Message, uid: string, id: string, due: int): Message {
    Message(m.content, OccurrenceId(uid, id, due),
            if m.app == "" then "default" else m.app,
            if m.kind == "" then "scheduled" else m.kind,
            if m.analyticsLabel == "" then "scheduled" else m.analyticsLabel,
            if m.ttl == 0 then HOUR else m.ttl)
  }

  // What a claimed job is announced with.
  function Announced(job: Job): Message {
    MessageForOccurrence(job.message, job.recipientId, job.id, job.dueAt)
  }

  // A new schedule: at is the instant of a one-off, and unused for a daily one.
  ghost function NewJob(uid: string, id: string, daily: Option<Daily>, at: int, message: Message, shard: nat,
                        now: int): Option<Job> {
    var due := if daily.Some? then NextDue(daily.value, now) else Some(at);
    if due.None? then None
    else Some(Job(id, uid, daily, message, Ready, shard, due.value, due.value, "", 0, [], [], "", false, now))
  }

  // ---- Results -------------------------------------------------------------------------

  predicate Acknowledges(r: TargetResult) {
    (r.err.None? && r.code == NoError) || r.code == Unregistered || r.code == Permanent
  }

  // expected holds the pending targets without a result so far; acked counts acknowledgements.
  datatype Tally = Tally(expected: map<string, Target>, completed: seq<string>, invalid: seq<string>, refs: seq<Ref>,
                         permanent: bool, acked: nat)

  function Count(t: Tally, r: TargetResult): Tally {
    if !(r.target.id in t.expected && t.expected[r.target.id] == r.target) then t
    else
      var rest := t.(expected := t.expected - {r.target.id});
      if !Acknowledges(r) then rest
      else
        var gone := r.code == Unregistered;
        rest.(completed := t.completed + [r.target.id],
              invalid := if gone then t.invalid + [r.target.id] else t.invalid,
              refs := if gone then t.refs + [Ref(r.target.recipientId, r.target.id)] else t.refs,
              permanent := t.permanent || r.code == Permanent,
              acked := t.acked + 1)
  }

  function CountAll(t: Tally, results: seq<TargetResult>): Tally {
    if results == [] then t else Count(CountAll(t, results[..|results| - 1]), results[|results| - 1])
  }

  function ById(targets: seq<Target>): map<string, Target> {
    if targets == [] then map[]
    else
      var t := targets[|targets| - 1];
      ById(targets[..|targets| - 1])[t.id := t]
  }

  function RefsOf(uid: string, ids: seq<string>): seq<Ref> {
    if ids == [] then [] else RefsOf(uid, ids[..|ids| - 1]) + [Ref(uid, ids[|ids| - 1])]
  }

  function Pending(completed: seq<string>, targets: seq<Target>): (r: seq<Target>)
    ensures forall t :: t in r <==> t in targets && t.id !in completed
  {
    if targets == [] then []
    else
      var t := targets[|targets| - 1];
      Pending(completed, targets[..|targets| - 1]) + (if t.id in completed then [] else [t])
  }

  // ---- The attempt -----------------------------------------------------------------------

  // Minutes doubled per attempt.
  function RetryDelay(attempts: nat): int {
    if attempts <= 1 then MINUTE else if attempts == 2 then 2 * MINUTE
    else if attempts == 3 then 4 * MINUTE else if attempts == 4 then 8 * MINUTE else 16 * MINUTE
  }

  function Retry(job: Job, code: string, now: int): Job {
    if job.attempts >= MAX_ATTEMPTS then job.(lastError := code, state := Failed)
    else job.(lastError := code, availableAt := now + RetryDelay(job.attempts))
  }

  function Begin(job: Job, now: int): Job {
    job.(lastError := "", leaseToken := "", attempts := job.attempts + 1, updatedAt := now)
  }

  function Start(job: Job, pending: seq<Target>): Tally {
    Tally(ById(pending), job.completed, job.invalidTargets, RefsOf(job.recipientId, job.invalidTargets), false, 0)
  }

  ghost function Settle(job: Job, now: int): Job {
    if job.daily.Some? then
      match NextDue(job.daily.value, now)
      case None => job.(state := Failed, lastError := "invalid_daily_schedule")
      case Some(next) =>
        job.(dueAt := next, availableAt := next, completed := [], attempts := 0, state := Ready,
             hasPermanentFailure := false,
             lastError := if job.hasPermanentFailure then "permanent_delivery_failure" else job.lastError)
    else if job.hasPermanentFailure then job.(state := Failed, attempts := 0, lastError := "permanent_delivery_failure")
    else job.(state := Done, attempts := 0)
  }

  // What the results of an attempt leave in the job before it is retried or settled.
  function Noted(job: Job, t: Tally, cleanupFailed: bool, now: int): Job {
    Begin(job, now).(completed := t.completed,
                     invalidTargets := if t.refs != [] && !cleanupFailed then [] else t.invalid,
                     hasPermanentFailure := job.hasPermanentFailure || t.permanent)
  }

  function Sent(job: Job, a: Attempt): seq<Target> {
    if a.lookup.None? then [] else Pending(job.completed, a.lookup.value)
  }

  function ReplyTo(job: Job, a: Attempt): SendReply {
    a.send(Announced(job), Sent(job, a))
  }

  function TallyOf(job: Job, a: Attempt): Tally {
    CountAll(Start(job, Sent(job, a)), ReplyTo(job, a).results)
  }

  predicate CleanupFailed(job: Job, a: Attempt) {
    TallyOf(job, a).refs != [] && a.cleanupFails(TallyOf(job, a).refs)
  }

  // Nothing is left to do for this occurrence.
  predicate Resolved(job: Job, a: Attempt) {
    a.lookup.Some? && TallyOf(job, a).acked >= |Sent(job, a)| && !ReplyTo(job, a).failed && !CleanupFailed(job, a)
  }

  ghost function Delivered(job: Job, a: Attempt): Job {
    if a.lookup.None? then Retry(Begin(job, a.startedAt), "target_lookup", a.endedAt)
    else
      var noted := Noted(job, TallyOf(job, a), CleanupFailed(job, a), a.startedAt);
      if Resolved(job, a) then Settle(noted, a.endedAt) else Retry(noted, "delivery_unresolved", a.endedAt)
  }

  method SelectPending(completed: seq<string>, targets: seq<Target>) returns (pending: seq<Target>)
    ensures pending == Pending(completed, targets)
  {
    var seen: set<string> := {};
    for i := 0 to |completed|
      invariant seen == set id | id in completed[..i]
    {
      assert completed[..i + 1] == completed[..i] + [completed[i]];
      seen := seen + {completed[i]};
    }
    assert completed[..|completed|] == completed;
    pending := [];
    for i := 0 to |targets|
      invariant pending == Pending(completed, targets[..i])
    {
      assert targets[..i + 1][..i] == targets[..i];
      if targets[i].id !in seen {
        pending := pending + [targets[i]];
      }
    }
    assert targets[..|targets|] == targets;
  }

  method CountResults(job: Job, pending: seq<Target>, results: seq<TargetResult>) returns (t: Tally)
    ensures t == CountAll(Start(job, pending), results)
  {
    var expected: map<string, Target> := map[];
    for i := 0 to |pending|
      invariant expected == ById(pending[..i])
    {
      assert pending[..i + 1][..i] == pending[..i];
      expected := expected[pending[i].id := pending[i]];
    }
    assert pending[..|pending|] == pending;
    var invalid: seq<Ref> := [];
    for i := 0 to |job.invalidTargets|
      invariant invalid == RefsOf(job.recipientId, job.invalidTargets[..i])
    {
      assert job.invalidTargets[..i + 1][..i] == job.invalidTargets[..i];
      invalid := invalid + [Ref(job.recipientId, job.invalidTargets[i])];
    }
    assert job.invalidTargets[..|job.invalidTargets|] == job.invalidTargets;
    var completed, invalidIds, permanent, acked := job.completed, job.invalidTargets, false, 0;
    for i := 0 to |results|
      invariant Tally(expected, completed, invalidIds, invalid, permanent, acked)
                  == CountAll(Start(job, pending), results[..i])
    {
      assert results[..i + 1][..i] == results[..i];
      var r := results[i];
      if r.target.id in expected && expected[r.target.id] == r.target {
        expected := expected - {r.target.id};
        if (r.err.None? && r.code == NoError) || r.code == Unregistered || r.code == Permanent {
          completed := completed + [r.target.id];
          acked := acked + 1;
          if r.code == Permanent {
            permanent := true;
          }
          if r.code == Unregistered {
            invalid := invalid + [Ref(r.target.recipientId, r.target.id)];
            invalidIds := invalidIds + [r.target.id];
          }
        }
      }
    }
    assert results[..|results|] == results;
    t := Tally(expected, completed, invalidIds, invalid, permanent, acked);
  }

  method Deliver(job: Job, a: Attempt) returns (updated: Job)
    ensures updated == Delivered(job, a)
  {
    hide CountAll, Pending, Start, MessageForOccurrence;
    updated := job.(lastError := "", leaseToken := "", attempts := job.attempts + 1, updatedAt := a.startedAt);
    if a.lookup.None? {
      return Retry(updated, "target_lookup", a.endedAt);
    }
    var pending := SelectPending(job.completed, a.lookup.value);
    var reply := a.send(Announced(job), pending);
    var t := CountResults(job, pending, reply.results);
    var failed := reply.failed;
    updated := updated.(completed := t.completed, invalidTargets := t.invalid);
    if |t.refs| > 0 {
      if a.cleanupFails(t.refs) {
        failed := true;
      } else {
        updated := updated.(invalidTargets := []);
      }
    }
    if t.permanent {
      updated := updated.(hasPermanentFailure := true);
    }
    if t.acked < |pending| || failed {
      return Retry(updated, "delivery_unresolved", a.endedAt);
    }
    if job.daily.Some? {
      var next := Next(job.daily.value, a.endedAt);
      NextIsUnique(job.daily.value, a.endedAt, next, NextDue(job.daily.value, a.endedAt));
      if next.None? {
        return updated.(state := Failed, lastError := "invalid_daily_schedule");
      }
      updated := updated.(dueAt := next.value, availableAt := next.value, completed := [], attempts := 0,
                          state := Ready);
      if updated.hasPermanentFailure {
        updated := updated.(lastError := "permanent_delivery_failure");
      }
      updated := updated.(hasPermanentFailure := false);
    } else {
      updated := updated.(state := Done, attempts := 0);
      if updated.hasPermanentFailure {
        updated := updated.(state := Failed, lastError := "permanent_delivery_failure");
      }
    }
  }

  // ---- What the tally means ----------------------------------------------------------------

  ghost predicate DistinctIds(targets: seq<Target>) {
    forall i, j :: 0 <= i < j < |targets| ==> targets[i].id != targets[j].id
  }

  // The first result that names exactly this target.
  ghost function FirstFor(results: seq<TargetResult>, t: Target): Option<TargetResult> {
    if results == [] then None
    else
      var before := FirstFor(results[..|results| - 1], t);
      var last := results[|results| - 1];
      if before.Some? then before else if last.target == t then Some(last) else None
  }

  lemma {:induction false} ByIdOf(targets: seq<Target>, id: string)
    ensures id in ById(targets) ==> ById(targets)[id] in targets && ById(targets)[id].id == id
    ensures (exists t :: t in targets && t.id == id) ==> id in ById(targets)
    ensures |ById(targets)| <= |targets|
  {
    hide ById;
    ByIdUnfold(targets);
    if targets != [] {
      var n := |targets| - 1;
      ByIdOf(targets[..n], id);
      assert targets == targets[..n] + [targets[n]];
      assert ById(targets).Keys == ById(targets[..n]).Keys + {targets[n].id};
      assert |ById(targets).Keys| <= |ById(targets[..n]).Keys| + 1;
    }
  }

  lemma ByIdUnfold(targets: seq<Target>)
    ensures targets == [] ==> ById(targets) == map[]
    ensures targets != [] ==>
              var n := |targets| - 1; ById(targets) == ById(targets[..n])[targets[n].id := targets[n]]
  {
  }

  lemma {:induction false} ByIdDistinct(targets: seq<Target>, t: Target)
    requires DistinctIds(targets) && t in targets
    ensures t.id in ById(targets) && ById(targets)[t.id] == t
  {
    var n := |targets| - 1;
    if t != targets[n] {
      var i :| 0 <= i < |targets| && targets[i] == t;
      assert targets[..n][i] == t;
      ByIdDistinct(targets[..n], t);
    }
  }

  // Each pending target is judged by its first exact result and by nothing else.
  lemma {:induction false} AcknowledgedExactly(s: Tally, results: seq<TargetResult>, t: Target)
    requires t.id in s.expected && s.expected[t.id] == t && t.id !in s.completed
    ensures var end := CountAll(s, results);
            var first := FirstFor(results, t);
            && (t.id in end.expected <==> first.None?) && (first.None? ==> end.expected[t.id] == t)
            && (t.id in end.completed <==>
                  first.Some? && ((first.value.err.None? && first.value.code == NoError)
                                  || first.value.code == Unregistered || first.value.code == Permanent))
            && (t.id in end.invalid && t.id !in s.invalid ==> first.Some? && first.value.code == Unregistered)
            && (first.Some? && first.value.code == Unregistered ==>
                  t.id in end.invalid && Ref(t.recipientId, t.id) in end.refs)
            && (first.Some? && first.value.code == Permanent ==> end.permanent)
  {
    if results != [] {
      var n := |results| - 1;
      AcknowledgedExactly(s, results[..n], t);
      OnlyExpected(s, results[..n], t.id);
    }
  }

  lemma {:induction false} OnlyExpected(s: Tally, results: seq<TargetResult>, id: string)
    ensures var end := CountAll(s, results);
            && s.completed <= end.completed && s.invalid <= end.invalid && s.refs <= end.refs
            && (id in end.expected ==> id in s.expected && end.expected[id] == s.expected[id])
            && (id in end.completed && id !in s.completed ==> id in s.expected && id !in end.expected)
            && (id in end.invalid && id !in s.invalid ==> id in end.completed)
            && (s.permanent ==> end.permanent)
  {
    if results != [] {
      OnlyExpected(s, results[..|results| - 1], id);
      var r := results[|results| - 1];
      OnlyExpected(s, results[..|results| - 1], r.target.id);
    }
  }

  lemma {:induction false} AckedBound(s: Tally, results: seq<TargetResult>)
    ensures var end := CountAll(s, results);
            && end.acked - s.acked + |end.expected| <= |s.expected|
            && |end.refs| - |s.refs| == |end.invalid| - |s.invalid|
  {
    if results != [] {
      AckedBound(s, results[..|results| - 1]);
      var mid := CountAll(s, results[..|results| - 1]);
      var id := results[|results| - 1].target.id;
      if id in mid.expected {
        assert (mid.expected - {id}).Keys == mid.expected.Keys - {id};
        assert |mid.expected.Keys - {id}| == |mid.expected.Keys| - 1;
      }
    }
  }

  // A target that is not acknowledged is missing from the count.
  lemma {:induction false} UnackedIsMissing(s: Tally, results: seq<TargetResult>, id: string)
    requires id in s.expected && id !in CountAll(s, results).completed
    ensures var end := CountAll(s, results);
            end.acked - s.acked + |end.expected| + (if id in end.expected then 0 else 1) <= |s.expected|
  {
    if results != [] {
      var init := results[..|results| - 1];
      OnlyExpected(s, init, id);
      UnackedIsMissing(s, init, id);
      var mid := CountAll(s, init);
      var other := results[|results| - 1].target.id;
      if other in mid.expected {
        RemovedOne(mid.expected, other);
      }
    }
  }

  lemma RemovedOne(m: map<string, Target>, id: string)
    requires id in m
    ensures |m - {id}| == |m| - 1
  {
  }

  // ---- What an attempt does to a job ---------------------------------------------------------

  // Every target found at lookup is acknowledged, now or before, once nothing is left to do.
  lemma ResolvedMeansAllAcknowledged(job: Job, a: Attempt, t: Target)
    requires Resolved(job, a) && t in a.lookup.value
    ensures t.id in TallyOf(job, a).completed
  {
    hide CountAll;
    var pending := Sent(job, a);
    var s := Start(job, pending);
    OnlyExpected(s, ReplyTo(job, a).results, t.id);
    if t.id !in job.completed {
      ByIdOf(pending, t.id);
      if t.id !in TallyOf(job, a).completed {
        UnackedIsMissing(s, ReplyTo(job, a).results, t.id);
        if t.id in TallyOf(job, a).expected {
          RemovedOne(TallyOf(job, a).expected, t.id);
        }
      }
    }
  }

  // How an attempt can end, and what each ending keeps.
  datatype Ending = Retried | Exhausted | Advanced | Broken | Finished

  ghost function EndingOf(job: Job, a: Attempt): Ending {
    if Resolved(job, a) then
      if job.daily.None? then Finished
      else if NextDue(job.daily.value, a.endedAt).Some? then Advanced else Broken
    else if job.attempts + 1 >= MAX_ATTEMPTS then Exhausted
    else Retried
  }

  ghost predicate Reported(job: Job, a: Attempt, t: Target, code: ErrorCode) {
    var first := FirstFor(ReplyTo(job, a).results, t);
    first.Some? && first.value.code == code
  }

  // The ids an attempt reports as unregistered, and whether it saw a permanent failure.
  ghost predicate ReportsUnregistered(job: Job, a: Attempt, id: string) {
    a.lookup.Some? && exists t :: t in Sent(job, a) && t.id == id && Reported(job, a, t, Unregistered)
  }

  ghost predicate ReportsPermanent(job: Job, a: Attempt) {
    a.lookup.Some? && exists t :: t in Sent(job, a) && Reported(job, a, t, Permanent)
  }

  // The installations an attempt has passed to a disable call that succeeded.
  ghost function DisabledBy(job: Job, a: Attempt): set<string> {
    if a.lookup.None? || CleanupFailed(job, a) then {} else set r | r in TallyOf(job, a).refs :: r.installationId
  }

  // What holds for a stored job that can be claimed or has ended.
  ghost predicate Sound(job: Job) {
    && (forall id :: id in job.invalidTargets ==> id in job.completed)
    && job.availableAt >= job.dueAt
    && (job.state == Ready ==> job.attempts < MAX_ATTEMPTS)
    && (job.state == Ready && job.attempts == 0 ==> job.completed == [] && job.invalidTargets == [])
    && (job.state == Done ==> job.invalidTargets == [] && !job.hasPermanentFailure)
  }

  ghost predicate SameJob(a: Job, b: Job) {
    a.id == b.id && a.recipientId == b.recipientId && a.daily == b.daily && a.message == b.message && a.shard == b.shard
  }

  // The clock of an attempt does not run backwards and starts when the job is due.
  ghost predicate Timed(job: Job, a: Attempt) {
    job.dueAt <= a.startedAt <= a.endedAt
  }

  lemma TallyFacts(job: Job, a: Attempt)
    requires forall id :: id in job.invalidTargets ==> id in job.completed
    ensures var t := TallyOf(job, a);
            && job.completed <= t.completed && job.invalidTargets <= t.invalid
            && (forall id :: id in t.invalid ==> id in t.completed)
            && |t.refs| == |t.invalid|
  {
    hide CountAll;
    var s := Start(job, Sent(job, a));
    var results := ReplyTo(job, a).results;
    AckedBound(s, results);
    RefsOfIds(job.recipientId, job.invalidTargets);
    OnlyExpected(s, results, "");
    forall id | id in TallyOf(job, a).invalid ensures id in TallyOf(job, a).completed {
      OnlyExpected(s, results, id);
    }
  }

  lemma {:induction false} RefsOfIds(uid: string, ids: seq<string>)
    ensures |RefsOf(uid, ids)| == |ids|
    ensures forall i :: 0 <= i < |ids| ==> RefsOf(uid, ids)[i] == Ref(uid, ids[i])
  {
    if ids != [] {
      RefsOfIds(uid, ids[..|ids| - 1]);
    }
  }

  // The result of an attempt, ending by ending.
  lemma AttemptEnds(job: Job, a: Attempt)
    requires Sound(job) && job.state == Ready && Timed(job, a)
    ensures var u := Delivered(job, a);
            && Sound(u) && SameJob(job, u) && u.leaseToken == ""
            && match EndingOf(job, a)
               case Retried =>
                 u.state == Ready && u.attempts == job.attempts + 1 && u.dueAt == job.dueAt
                 && job.completed <= u.completed && u.availableAt == a.endedAt + RetryDelay(u.attempts)
               case Exhausted =>
                 u.state == Failed && u.attempts == job.attempts + 1 && u.dueAt == job.dueAt
                 && job.completed <= u.completed
               case Advanced =>
                 u.state == Ready && u.attempts == 0 && u.dueAt == u.availableAt > a.endedAt && u.completed == []
                 && u.invalidTargets == [] && !u.hasPermanentFailure
                 && IsNext(job.daily.value, a.endedAt, Some(u.dueAt))
               case Broken =>
                 u.state == Failed && u.dueAt == job.dueAt && job.completed <= u.completed && u.invalidTargets == []
               case Finished =>
                 (u.state == Done || u.state == Failed) && u.dueAt == job.dueAt && job.completed <= u.completed
                 && u.invalidTargets == [] && (u.state == Failed <==> u.hasPermanentFailure)
  {
    hide TallyOf, CleanupFailed, ReplyTo, Sent, MessageForOccurrence, IsNext;
    TallyFacts(job, a);
    if Resolved(job, a) {
      NothingInvalidLeft(job, a);
    }
    if job.daily.Some? {
      NextIsLater(job.daily.value, a.endedAt);
    }
  }

  lemma NothingInvalidLeft(job: Job, a: Attempt)
    requires Resolved(job, a) && |TallyOf(job, a).refs| == |TallyOf(job, a).invalid|
    ensures Noted(job, TallyOf(job, a), CleanupFailed(job, a), a.startedAt).invalidTargets == []
  {
  }

  lemma NextIsLater(d: Daily, now: int)
    ensures NextDue(d, now).Some? ==> NextDue(d, now).value > now
  {
  }

  // No report is dropped: an id reported now or waiting before is either disabled by this
  // attempt or still waiting afterwards, and a permanent failure is remembered.
  lemma AttemptConserves(job: Job, a: Attempt, id: string)
    requires Sound(job) && job.state == Ready && Timed(job, a)
    requires a.lookup.Some? ==> DistinctIds(a.lookup.value)
    requires id in job.invalidTargets || ReportsUnregistered(job, a, id)
    ensures id in DisabledBy(job, a) || id in Delivered(job, a).invalidTargets
  {
    hide CountAll, FirstFor, MessageForOccurrence, NextDue;
    if a.lookup.Some? {
      var s := Start(job, Sent(job, a));
      var results := ReplyTo(job, a).results;
      OnlyExpected(s, results, id);
      if id in job.invalidTargets {
        RefsOfIds(job.recipientId, job.invalidTargets);
        var i :| 0 <= i < |job.invalidTargets| && job.invalidTargets[i] == id;
        assert s.refs[i] == Ref(job.recipientId, id) && s.refs[i] in TallyOf(job, a).refs;
        assert s.invalid[i] == id && id in TallyOf(job, a).invalid;
      } else {
        var t :| t in Sent(job, a) && t.id == id && Reported(job, a, t, Unregistered);
        PendingDistinct(job.completed, a.lookup.value);
        ByIdDistinct(Sent(job, a), t);
        AcknowledgedExactly(s, results, t);
        assert Ref(t.recipientId, t.id).installationId == id;
      }
      ConservedTally(job, a, id);
    }
  }

  lemma {:induction false} PermanentWasSeen(s: Tally, results: seq<TargetResult>) returns (t: Target)
    requires CountAll(s, results).permanent && !s.permanent
    requires forall id :: id in s.expected ==> s.expected[id].id == id && id !in s.completed
    ensures t.id in s.expected && s.expected[t.id] == t
    ensures var first := FirstFor(results, t); first.Some? && first.value.code == Permanent
  {
    var n := |results| - 1;
    if CountAll(s, results[..n]).permanent {
      t := PermanentWasSeen(s, results[..n]);
    } else {
      t := results[n].target;
      OnlyExpected(s, results[..n], t.id);
      AcknowledgedExactly(s, results[..n], t);
    }
  }

  // An attempt finds a permanent failure exactly when one is reported.
  lemma PermanentExactly(job: Job, a: Attempt)
    requires a.lookup.Some? ==> DistinctIds(a.lookup.value)
    ensures a.lookup.Some? && TallyOf(job, a).permanent <==> ReportsPermanent(job, a)
  {
    hide CountAll, FirstFor, MessageForOccurrence;
    if a.lookup.Some? {
      var pending := Sent(job, a);
      var s := Start(job, pending);
      var results := ReplyTo(job, a).results;
      PendingDistinct(job.completed, a.lookup.value);
      forall id | id in s.expected ensures s.expected[id].id == id && id !in s.completed && s.expected[id] in pending {
        ByIdOf(pending, id);
      }
      if TallyOf(job, a).permanent {
        var t := PermanentWasSeen(s, results);
        assert Reported(job, a, t, Permanent);
      }
      if t :| t in pending && Reported(job, a, t, Permanent) {
        ByIdDistinct(pending, t);
        AcknowledgedExactly(s, results, t);
      }
    }
  }

  lemma {:induction false} NewInvalidWasExpected(s: Tally, results: seq<TargetResult>, id: string)
    requires id in CountAll(s, results).invalid && id !in s.invalid
    ensures id in s.expected
  {
    var init := results[..|results| - 1];
    OnlyExpected(s, init, results[|results| - 1].target.id);
    if id in CountAll(s, init).invalid {
      NewInvalidWasExpected(s, init, id);
    }
  }

  // Nothing else waits: an id that waits afterwards was reported now or waiting before, and
  // this attempt has not disabled it.
  lemma WaitingWasReported(job: Job, a: Attempt, id: string)
    requires Sound(job) && job.state == Ready && Timed(job, a)
    requires a.lookup.Some? ==> DistinctIds(a.lookup.value)
    requires id in Delivered(job, a).invalidTargets
    ensures id in job.invalidTargets || ReportsUnregistered(job, a, id)
    ensures id !in DisabledBy(job, a)
  {
    hide CountAll, FirstFor, MessageForOccurrence, NextDue;
    WaitingInTally(job, a, id);
    if a.lookup.Some? && id !in job.invalidTargets {
      var s := Start(job, Sent(job, a));
      var results := ReplyTo(job, a).results;
      NewInvalidWasExpected(s, results, id);
      ByIdOf(Sent(job, a), id);
      var t := s.expected[id];
      AcknowledgedExactly(s, results, t);
      assert Reported(job, a, t, Unregistered);
    }
  }

  lemma WaitingInTally(job: Job, a: Attempt, id: string)
    requires id in Delivered(job, a).invalidTargets
    ensures a.lookup.None? ==> id in job.invalidTargets
    ensures a.lookup.Some? ==> id in TallyOf(job, a).invalid
    ensures id !in DisabledBy(job, a)
  {
    hide TallyOf, ReplyTo, Sent, NextDue;
  }

  lemma ConservedTally(job: Job, a: Attempt, id: string)
    requires a.lookup.Some? && id in TallyOf(job, a).invalid
    requires exists r :: r in TallyOf(job, a).refs && r.installationId == id
    ensures id in DisabledBy(job, a) || id in Delivered(job, a).invalidTargets
  {
  }

  lemma {:induction false} PendingDistinct(completed: seq<string>, targets: seq<Target>)
    requires DistinctIds(targets)
    ensures DistinctIds(Pending(completed, targets))
  {
    if targets != [] {
      var n := |targets| - 1;
      PendingDistinct(completed, targets[..n]);
      var rest := Pending(completed, targets[..n]);
      forall i | 0 <= i < |rest| ensures rest[i].id != targets[n].id {
        assert rest[i] in targets[..n];
      }
    }
  }

  lemma PermanentIsRemembered(job: Job, a: Attempt)
    requires Sound(job) && job.state == Ready && Timed(job, a)
    requires a.lookup.Some? ==> DistinctIds(a.lookup.value)
    requires job.hasPermanentFailure || ReportsPermanent(job, a)
    ensures Delivered(job, a).hasPermanentFailure || EndingOf(job, a).Advanced?
    ensures job.daily.None? ==> Delivered(job, a).state != Done
  {
    hide CountAll, FirstFor, MessageForOccurrence, NextDue;
    if a.lookup.Some? && !job.hasPermanentFailure {
      var s := Start(job, Sent(job, a));
      var results := ReplyTo(job, a).results;
      var t :| t in Sent(job, a) && Reported(job, a, t, Permanent);
      PendingDistinct(job.completed, a.lookup.value);
      ByIdDistinct(Sent(job, a), t);
      AcknowledgedExactly(s, results, t);
    }
    PermanentNoted(job, a);
  }

  lemma PermanentNoted(job: Job, a: Attempt)
    requires job.hasPermanentFailure || (a.lookup.Some? && TallyOf(job, a).permanent)
    requires job.state == Ready
    ensures Delivered(job, a).hasPermanentFailure || EndingOf(job, a).Advanced?
    ensures job.daily.None? ==> Delivered(job, a).state != Done
  {
    hide TallyOf, ReplyTo, Sent, CleanupFailed, NextDue;
  }

  // The retry delays of an occurrence are 1, 2, 4 and 8 minutes.
  lemma RetryDelays(job: Job, a: Attempt)
    requires Sound(job) && job.state == Ready && Timed(job, a) && EndingOf(job, a).Retried?
    ensures var u := Delivered(job, a);
            1 <= u.attempts <= 4
            && u.availableAt - a.endedAt == [1, 2, 4, 8][u.attempts - 1] * 60_000_000_000
  {
    AttemptEnds(job, a);
  }

  // A retried occurrence is announced under the same notification id and content.
  lemma RetryKeepsMessage(job: Job, a: Attempt)
    requires Sound(job) && job.state == Ready && Timed(job, a) && EndingOf(job, a).Retried?
    ensures Announced(Delivered(job, a)) == Announced(job)
  {
    hide Delivered, Sound;
    AttemptEnds(job, a);
  }

  // A failed lookup, a sender that reports an error, and a cleanup that fails each leave the
  // occurrence open.
  lemma FailureLeavesOpen(job: Job, a: Attempt)
    requires a.lookup.None? || a.send(Announced(job), Sent(job, a)).failed
             || (TallyOf(job, a).refs != [] && a.cleanupFails(TallyOf(job, a).refs))
    ensures EndingOf(job, a).Retried? || EndingOf(job, a).Exhausted?
  {
    hide CountAll, NextDue, Announced;
  }

  // Every field of the job an attempt leaves, but for the acknowledgements and what waits.
  lemma AttemptLeaves(job: Job, a: Attempt)
    requires job.state == Ready
    ensures var u := Delivered(job, a);
            var failure := job.hasPermanentFailure || (a.lookup.Some? && TallyOf(job, a).permanent);
            var why := if a.lookup.None? then "target_lookup" else "delivery_unresolved";
            && u.id == job.id && u.recipientId == job.recipientId && u.daily == job.daily && u.message == job.message
            && u.shard == job.shard && u.leaseToken == "" && u.updatedAt == a.startedAt
            && (if EndingOf(job, a).Advanced? then u.completed == [] && !u.hasPermanentFailure
                else u.completed == (if a.lookup.None? then job.completed else TallyOf(job, a).completed)
                     && u.dueAt == job.dueAt && u.hasPermanentFailure == failure)
            && match EndingOf(job, a)
               case Retried =>
                 u.state == Ready && u.attempts == job.attempts + 1 && u.lastError == why
               case Exhausted =>
                 u.state == Failed && u.attempts == job.attempts + 1 >= 5 && u.lastError == why
                 && u.availableAt == job.availableAt
               case Advanced =>
                 u.state == Ready && u.attempts == 0 && u.dueAt == u.availableAt
                 && u.lastError == (if failure then "permanent_delivery_failure" else "")
               case Broken =>
                 u.state == Failed && u.lastError == "invalid_daily_schedule" && u.attempts == job.attempts + 1
                 && u.availableAt == job.availableAt && IsNext(job.daily.value, a.endedAt, None)
               case Finished =>
                 u.attempts == 0 && u.availableAt == job.availableAt && job.daily.None?
                 && (if failure then u.state == Failed && u.lastError == "permanent_delivery_failure"
                     else u.state == Done && u.lastError == "")
    ensures EndingOf(job, a).Exhausted? || EndingOf(job, a).Retried? ==>
              (EndingOf(job, a).Exhausted? <==> job.attempts + 1 >= 5)
  {
    hide TallyOf, ReplyTo, Sent, CleanupFailed, IsNext;
  }

  // The targets of an attempt are those found that are not completed, in the order found.
  lemma {:induction false} PendingInOrder(completed: seq<string>, a: seq<Target>, b: seq<Target>)
    ensures Pending(completed, a + b) == Pending(completed, a) + Pending(completed, b)
    decreases |b|
  {
    hide Pending;
    if b == [] {
      PendingNone(completed);
      assert a + b == a;
    } else {
      var n := |b| - 1;
      PendingSnoc(completed, b[..n], b[n]);
      PendingSnoc(completed, a + b[..n], b[n]);
      PendingInOrder(completed, a, b[..n]);
      assert b == b[..n] + [b[n]] && a + b == (a + b[..n]) + [b[n]];
    }
  }

  lemma PendingSnoc(completed: seq<string>, targets: seq<Target>, t: Target)
    ensures Pending(completed, targets + [t]) == Pending(completed, targets) + (if t.id in completed then [] else [t])
  {
  }

  lemma PendingNone(completed: seq<string>)
    ensures Pending(completed, []) == []
  {
  }
}
