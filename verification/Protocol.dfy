/** The durable scheduler: Put, Cancel, claims and finishes on stored jobs, interleaved
    freely with the attempts of any number of workers. */
module Protocol {
  import opened Push
  import opened Recurrence
  import opened Worker

  datatype Key = Key(uid: string, id: string)

  function KeyOf(job: Job): Key {
    Key(job.recipientId, job.id)
  }

  type Docs = map<Key, Job>

  // ---- The store's transactions --------------------------------------------------------

  function PutDoc(docs: Docs, job: Job): Docs {
    docs[KeyOf(job) := job]
  }

  function CancelDoc(docs: Docs, key: Key, now: int): Docs {
    if key !in docs then docs else docs[key := docs[key].(state := Canceled, leaseToken := "", updatedAt := now)]
  }

  predicate Claimable(docs: Docs, key: Key, shard: nat, now: int) {
    key in docs && docs[key].state == Ready && docs[key].shard == shard && docs[key].availableAt <= now
  }

  function Leased(job: Job, token: string, now: int, lease: int): Job {
    job.(leaseToken := token, availableAt := now + lease, updatedAt := now)
  }

  function ClaimDoc(docs: Docs, key: Key, shard: nat, token: string, now: int, lease: int): Docs {
    if Claimable(docs, key, shard, now) then docs[key := Leased(docs[key], token, now, lease)] else docs
  }

  predicate HoldsLease(docs: Docs, claimed: Job) {
    KeyOf(claimed) in docs && claimed.leaseToken != "" && docs[KeyOf(claimed)].leaseToken == claimed.leaseToken
    && docs[KeyOf(claimed)].state == Ready
  }

  datatype FinishError = LeaseLost | IdentityChanged

  function FinishDoc(docs: Docs, claimed: Job, updated: Job): (Docs, Option<FinishError>) {
    if !HoldsLease(docs, claimed) then (docs, Some(LeaseLost))
    else if updated.id != docs[KeyOf(claimed)].id || updated.recipientId != docs[KeyOf(claimed)].recipientId
    then (docs, Some(IdentityChanged))
    else (docs[KeyOf(claimed) := updated], None)
  }

  class JobStore {
    var docs: Docs

    constructor ()
      ensures docs == map[]
    {
      docs := map[];
    }

    method Put(job: Job)
      modifies this
      ensures docs == PutDoc(old(docs), job)
      ensures docs == old(docs)[Key(job.recipientId, job.id) := job]
    {
      docs := docs[KeyOf(job) := job];
    }

    method Cancel(uid: string, id: string, now: int)
      modifies this
      ensures docs == CancelDoc(old(docs), Key(uid, id), now)
    {
      var key := Key(uid, id);
      if key in docs {
        docs := docs[key := docs[key].(state := Canceled, leaseToken := "", updatedAt := now)];
      }
    }

    // A claim that fails half way returns what it has leased so far. trail holds the documents
    // before and after each transaction, won the job each of them handed out.
    method ClaimDue(w: Claiming, now: int, shard: int, limit: int, lease: int)
      returns (claimed: seq<Job>, err: Option<ClaimError>, ghost trail: seq<Docs>, ghost won: seq<Option<Job>>)
      modifies this
      ensures err != Some(InvalidOptions) ==>
                && TriesFirst(w, limit, |won|, err)
                && |trail| == |won| + 1 && trail[0] == old(docs) && trail[|won|] == docs && claimed == Somes(won)
                && forall i :: 0 <= i < |won| ==>
                     Transacted(w.others(i, trail[i]), trail[i + 1], w.found.value[i], won[i], w.token(i), now, shard,
                                lease)
      ensures err == Some(InvalidOptions) <==> !(0 <= shard < SHARD_COUNT && 1 <= limit <= 1000 && lease > 0)
      ensures err == Some(InvalidOptions) ==> docs == old(docs) && claimed == []
      ensures err != Some(InvalidOptions) ==>
                && docs == ClaimAll(old(docs), w.Reached(limit), w, shard, now, lease)
                && claimed == ClaimedJobs(old(docs), w.Reached(limit), w, shard, now, lease)
                && err == w.Error(limit)
    {
      hide Transacted, Somes, ClaimAll, ClaimedJobs;
      claimed, err, trail, won := [], None, [docs], [];
      if shard < 0 || shard >= SHARD_COUNT || limit < 1 || limit > 1000 || lease <= 0 {
        return [], Some(InvalidOptions), trail, won;
      }
      ghost var before := docs;
      if w.found.None? {
        err := Some(QueryFailed);
      } else {
        var candidates := if |w.found.value| > limit then w.found.value[..limit] else w.found.value;
        var failed;
        claimed, failed := LeaseEach(candidates, w, now, shard, lease);
        err := if failed then Some(TransactionFailed) else None;
      }
      NothingClaimed(before, w, shard, now, lease);
      trail, won := Trail(before, w.Reached(limit), w, shard, now, lease);
    }

    // One transaction per candidate, up to the first that fails.
    method LeaseEach(candidates: seq<Key>, w: Claiming, now: int, shard: nat, lease: int)
      returns (claimed: seq<Job>, failed: bool)
      modifies this
      ensures var n := Through(w.fails, |candidates|);
              && docs == ClaimAll(old(docs), candidates[..n], w, shard, now, lease)
              && claimed == ClaimedJobs(old(docs), candidates[..n], w, shard, now, lease)
              && (failed <==> n < |candidates|)
    {
      hide Leased;
      claimed, failed := [], false;
      for i := 0 to |candidates|
        invariant docs == ClaimAll(old(docs), candidates[..i], w, shard, now, lease)
        invariant claimed == ClaimedJobs(old(docs), candidates[..i], w, shard, now, lease)
        invariant Through(w.fails, i) == i
      {
        ThroughStops(w.fails, i, |candidates|);
        if w.fails(i) {
          return claimed, true;
        }
        ClaimStep(old(docs), candidates, w, i, shard, now, lease);
        docs := w.others(i, docs);
        var won := false;
        var key := candidates[i];
        if key in docs {
          var job := docs[key];
          if job.state == Ready && job.shard == shard && job.availableAt <= now {
            LeasedIs(job, w.token(i), now, lease);
            job := job.(leaseToken := w.token(i), availableAt := now + lease, updatedAt := now);
            docs := docs[key := job];
            won := true;
          }
          if won {
            claimed := claimed + [job];
          }
        }
      }
    }

    method Finish(claimed: Job, updated: Job) returns (err: Option<FinishError>)
      modifies this
      ensures (docs, err) == FinishDoc(old(docs), claimed, updated)
    {
      var key := KeyOf(claimed);
      if key !in docs {
        return Some(LeaseLost);
      }
      var current := docs[key];
      if claimed.leaseToken == "" || current.leaseToken != claimed.leaseToken || current.state != Ready {
        return Some(LeaseLost);
      }
      if updated.id != current.id || updated.recipientId != current.recipientId {
        return Some(IdentityChanged);
      }
      docs := docs[key := updated];
      err := None;
    }
  }

  function Somes<T>(xs: seq<Option<T>>): seq<T> {
    if xs == [] then []
    else Somes(xs[..|xs| - 1]) + (if xs[|xs| - 1].Some? then [xs[|xs| - 1].value] else [])
  }

  // n of the first limit candidates offered were tried: all of them, or up to the first
  // whose transaction fails.
  ghost predicate TriesFirst(w: Claiming, limit: int, n: nat, err: Option<ClaimError>) {
    if w.found.None? then n == 0 && err == Some(QueryFailed)
    else
      var all := if |w.found.value| < limit then |w.found.value| else limit;
      && n <= all && (forall i :: 0 <= i < n ==> !w.fails(i))
      && (if n < all then w.fails(n) && err == Some(TransactionFailed) else err.None?)
  }

  // One transaction: a document that is present, ready, of the shard and available is leased
  // and handed out, and nothing else changes; any other is left alone.
  ghost predicate Transacted(found: Docs, after: Docs, key: Key, won: Option<Job>, token: string, now: int, shard: int,
                             lease: int)
  {
    if key in found && found[key].state == Ready && found[key].shard == shard && found[key].availableAt <= now then
      && after.Keys == found.Keys && (forall k :: k in found && k != key ==> after[k] == found[k])
      && won == Some(after[key])
      && after[key] == found[key].(leaseToken := token, availableAt := now + lease, updatedAt := now)
    else after == found && won.None?
  }

  lemma {:induction false} Trail(docs: Docs, keys: seq<Key>, w: Claiming, shard: nat, now: int, lease: int)
    returns (trail: seq<Docs>, won: seq<Option<Job>>)
    ensures |won| == |keys| && |trail| == |won| + 1 && trail[0] == docs
    ensures trail[|won|] == ClaimAll(docs, keys, w, shard, now, lease)
    ensures Somes(won) == ClaimedJobs(docs, keys, w, shard, now, lease)
    ensures forall i :: 0 <= i < |won| ==>
              Transacted(w.others(i, trail[i]), trail[i + 1], keys[i], won[i], w.token(i), now, shard, lease)
  {
    hide Transacted, ClaimDoc, Leased;
    if keys == [] {
      trail, won := [docs], [];
    } else {
      var n := |keys| - 1;
      var trail0, won0 := Trail(docs, keys[..n], w, shard, now, lease);
      var before := w.others(n, trail0[n]);
      var handed := if Claimable(before, keys[n], shard, now)
                    then Some(Leased(before[keys[n]], w.token(n), now, lease)) else None;
      var after := ClaimDoc(before, keys[n], shard, w.token(n), now, lease);
      OneTransaction(before, keys[n], shard, w.token(n), now, lease);
      trail, won := trail0 + [after], won0 + [handed];
      assert won[..n] == won0;
    }
  }

  lemma NothingClaimed(docs: Docs, w: Claiming, shard: nat, now: int, lease: int)
    ensures ClaimAll(docs, [], w, shard, now, lease) == docs && ClaimedJobs(docs, [], w, shard, now, lease) == []
  {
  }

  lemma LeasedIs(job: Job, token: string, now: int, lease: int)
    ensures Leased(job, token, now, lease) == job.(leaseToken := token, availableAt := now + lease, updatedAt := now)
  {
  }

  lemma OneTransaction(found: Docs, key: Key, shard: nat, token: string, now: int, lease: int)
    ensures Transacted(found, ClaimDoc(found, key, shard, token, now, lease), key,
                       if Claimable(found, key, shard, now) then Some(Leased(found[key], token, now, lease)) else None,
                       token, now, shard, lease)
  {
  }

  // What surrounds one call of ClaimDue: the keys the index offers, however stale (None when
  // the query fails), the tokens drawn, which transactions fail, and what others write
  // before each transaction.
  datatype Claiming = Claiming(
    found: Option<seq<Key>>, token: nat -> string, fails: nat -> bool, others: (nat, Docs) -> Docs)
  {
    function Candidates(limit: nat): seq<Key> {
      if found.None? then [] else if |found.value| > limit then found.value[..limit] else found.value
    }

    // The candidates whose transactions went through.
    function Reached(limit: nat): seq<Key> {
      Candidates(limit)[..Through(fails, |Candidates(limit)|)]
    }

    function Error(limit: nat): Option<ClaimError> {
      if found.None? then Some(QueryFailed)
      else if |Reached(limit)| < |Candidates(limit)| then Some(TransactionFailed) else None
    }
  }

  datatype ClaimError = InvalidOptions | QueryFailed | TransactionFailed

  // How many of n transactions go through before one fails.
  function Through(fails: nat -> bool, n: nat): (k: nat)
    ensures k <= n && (k < n ==> fails(k)) && forall i :: 0 <= i < k ==> !fails(i)
  {
    if n == 0 then 0
    else
      var k := Through(fails, n - 1);
      if k < n - 1 || fails(n - 1) then k else n
  }

  lemma {:induction false} ThroughStops(fails: nat -> bool, i: nat, n: nat)
    requires i < n && Through(fails, i) == i
    ensures fails(i) ==> Through(fails, n) == i
    ensures !fails(i) ==> Through(fails, i + 1) == i + 1
  {
    if i + 1 < n {
      ThroughStops(fails, i, n - 1);
    }
  }

  // One transaction per candidate, in query order.
  function ClaimAll(docs: Docs, keys: seq<Key>, w: Claiming, shard: nat, now: int, lease: int): Docs {
    if keys == [] then docs
    else
      var n := |keys| - 1;
      ClaimDoc(w.others(n, ClaimAll(docs, keys[..n], w, shard, now, lease)), keys[n], shard, w.token(n), now, lease)
  }

  function ClaimedJobs(docs: Docs, keys: seq<Key>, w: Claiming, shard: nat, now: int, lease: int): seq<Job> {
    if keys == [] then []
    else
      var n := |keys| - 1;
      var before := w.others(n, ClaimAll(docs, keys[..n], w, shard, now, lease));
      ClaimedJobs(docs, keys[..n], w, shard, now, lease)
      + (if Claimable(before, keys[n], shard, now) then [Leased(before[keys[n]], w.token(n), now, lease)] else [])
  }

  lemma ClaimStep(docs: Docs, keys: seq<Key>, w: Claiming, i: nat, shard: nat, now: int, lease: int)
    requires i < |keys|
    ensures var before := w.others(i, ClaimAll(docs, keys[..i], w, shard, now, lease));
            && ClaimAll(docs, keys[..i + 1], w, shard, now, lease)
               == ClaimDoc(before, keys[i], shard, w.token(i), now, lease)
            && ClaimedJobs(docs, keys[..i + 1], w, shard, now, lease)
               == ClaimedJobs(docs, keys[..i], w, shard, now, lease)
                + (if Claimable(before, keys[i], shard, now) then [Leased(before[keys[i]], w.token(i), now, lease)]
                   else [])
  {
    assert keys[..i + 1][..i] == keys[..i];
  }

  // A claim hands out ready jobs of the shard, leased for the full time, at most limit.
  lemma {:induction false} ClaimedAreLeased(docs: Docs, keys: seq<Key>, w: Claiming, shard: nat, now: int, lease: int)
    ensures var jobs := ClaimedJobs(docs, keys, w, shard, now, lease);
            && |jobs| <= |keys|
            && forall job :: job in jobs ==> job.state == Ready && job.shard == shard && job.availableAt == now + lease
  {
    if keys != [] {
      ClaimedAreLeased(docs, keys[..|keys| - 1], w, shard, now, lease);
    }
  }

  // ---- The whole system ------------------------------------------------------------------

  datatype Writer = ByPut | ByCancel | ByClaim(token: string) | ByFinish(token: string)

  // What has happened to a key: which Put this is, who wrote the document last, and, since
  // that Put, the successful finishes of the current occurrence, the installations reported
  // unregistered by persisted attempts and not retired by the same or a later one, and
  // whether a permanent failure of the occurrence was seen. put is what was submitted.
  datatype History = History(gen: nat, writer: Writer, finishes: nat, outstanding: iset<string>, permanent: bool,
                             put: Submission)

  datatype Submission = Submission(daily: Option<Daily>, at: int, message: Message, shard: nat, now: int)

  datatype Phase = Working | Held(attempt: Attempt, updated: Job)

  datatype Claim = Claim(gen: nat, takenAt: int, job: Job, phase: Phase)

  // One call of the sender: the message and the ids of the targets it was given.
  datatype SendRecord = SendRecord(key: Key, gen: nat, dueAt: int, token: string, message: Message, ids: set<string>,
                                   takenAt: int, leaseEnd: int, startedAt: int, endedAt: int)

  datatype System = System(docs: Docs, clock: int, claims: map<string, Claim>, used: set<string>,
                           hist: map<Key, History>, sends: seq<SendRecord>)

  datatype Step =
    | Put(uid: string, id: string, daily: Option<Daily>, at: int, message: Message, shard: nat, now: int)
    | Cancel(key: Key, now: int)
    | Advance(to: int)
    | TakeLease(key: Key, shard: nat, token: string, now: int, lease: int)
    | Work(token: string, attempt: Attempt)
    | Finish(token: string)
    | Crash(token: string)

  ghost function Init(): System {
    System(map[], 0, map[], {}, map[], [])
  }

  function GenOf(s: System, key: Key): nat {
    if key in s.hist then s.hist[key].gen else 0
  }

  // Tokens are fresh, the clock does not run backwards and is shared, attempts run after
  // their claim was taken, and target lookups return each installation once.
  ghost predicate Legal(s: System, step: Step) {
    match step
    case Put(_, _, _, _, _, _, _) => true
    case Cancel(_, _) => true
    case Advance(to) => s.clock <= to
    case TakeLease(_, _, token, now, lease) => token != "" && token !in s.used && now <= s.clock && lease > 0
    case Work(token, a) =>
      token in s.claims && s.claims[token].phase.Working?
      && s.claims[token].takenAt <= a.startedAt <= a.endedAt <= s.clock
      && (a.lookup.Some? ==> DistinctIds(a.lookup.value))
    case Finish(token) => token in s.claims && s.claims[token].phase.Held?
    case Crash(token) => token in s.claims
  }

  ghost function ApplyPut(s: System, job: Job, put: Submission): System {
    s.(docs := PutDoc(s.docs, job),
       hist := s.hist[KeyOf(job) := History(GenOf(s, KeyOf(job)) + 1, ByPut, 0, iset{}, false, put)])
  }

  ghost function ApplyTake(s: System, key: Key, shard: nat, token: string, now: int, lease: int): System {
    if !Claimable(s.docs, key, shard, now) || key !in s.hist then s.(used := s.used + {token})
    else
      s.(docs := ClaimDoc(s.docs, key, shard, token, now, lease),
         used := s.used + {token},
         claims := s.claims[token := Claim(GenOf(s, key), now, Leased(s.docs[key], token, now, lease), Working)],
         hist := s.hist[key := s.hist[key].(writer := ByClaim(token))])
  }

  ghost function IdsSent(job: Job, a: Attempt): set<string> {
    set t | t in Sent(job, a) :: t.id
  }

  ghost function ApplyWork(s: System, token: string, a: Attempt): System
    requires token in s.claims
  {
    var c := s.claims[token];
    s.(claims := s.claims[token := c.(phase := Held(a, Delivered(c.job, a)))],
       sends := s.sends + [SendRecord(KeyOf(c.job), c.gen, c.job.dueAt, token, Announced(c.job), IdsSent(c.job, a),
                                      c.takenAt, c.job.availableAt, a.startedAt, a.endedAt)])
  }

  ghost function Reports(job: Job, a: Attempt): iset<string> {
    iset id | ReportsUnregistered(job, a, id)
  }

  ghost function AfterFinish(h: History, token: string, job: Job, a: Attempt): History {
    History(h.gen, ByFinish(token), if EndingOf(job, a).Advanced? then 0 else h.finishes + 1,
            iset id | (id in h.outstanding || id in Reports(job, a)) && id !in DisabledBy(job, a),
            !EndingOf(job, a).Advanced? && (h.permanent || ReportsPermanent(job, a)), h.put)
  }

  ghost function ApplyFinish(s: System, token: string): System
    requires token in s.claims && s.claims[token].phase.Held?
  {
    var c := s.claims[token];
    var (docs, err) := FinishDoc(s.docs, c.job, c.phase.updated);
    var key := KeyOf(c.job);
    s.(docs := docs, claims := s.claims - {token},
       hist := if err.Some? || key !in s.hist then s.hist
               else s.hist[key := AfterFinish(s.hist[key], token, c.job, c.phase.attempt)])
  }

  ghost function Apply(s: System, step: Step): System
    requires Legal(s, step)
  {
    match step
    case Put(uid, id, daily, at, message, shard, now) =>
      var job := NewJob(uid, id, daily, at, message, shard, now);
      if job.None? then s else ApplyPut(s, job.value, Submission(daily, at, message, shard, now))
    case Cancel(key, now) =>
      if key !in s.docs || key !in s.hist then s
      else s.(docs := CancelDoc(s.docs, key, now), hist := s.hist[key := s.hist[key].(writer := ByCancel)])
    case Advance(to) => s.(clock := to)
    case TakeLease(key, shard, token, now, lease) => ApplyTake(s, key, shard, token, now, lease)
    case Work(token, a) => ApplyWork(s, token, a)
    case Finish(token) => ApplyFinish(s, token)
    case Crash(token) => s.(claims := s.claims - {token})
  }

  ghost predicate Run(s: System, steps: seq<Step>)
    decreases steps
  {
    steps == [] || (Legal(s, steps[0]) && Run(Apply(s, steps[0]), steps[1..]))
  }

  ghost function Exec(s: System, steps: seq<Step>): System
    requires Run(s, steps)
    decreases steps
  {
    if steps == [] then s else Exec(Apply(s, steps[0]), steps[1..])
  }

  // ---- The invariant ---------------------------------------------------------------------------

  // The document carries a token exactly while its last write was the claim with that token.
  ghost predicate TokenMatches(job: Job, h: History, used: set<string>) {
    match h.writer
    case ByClaim(token) => job.leaseToken == token && token != "" && job.state == Ready && token in used
    case ByPut => job.leaseToken == "" && job.state == Ready
    case ByCancel => job.leaseToken == "" && job.state == Canceled
    case ByFinish(_) => job.leaseToken == "" && job.state != Canceled
  }

  // A daily job is due at the occurrence of a local date.
  ghost predicate DueOnDate(job: Job) {
    job.daily.Some? ==>
      job.daily.value.Valid()
      && OccursAt(job.daily.value.zone.value, job.daily.value.localTime,
                  LocalDate(job.daily.value.zone.value, job.dueAt), job.dueAt)
  }

  ghost predicate Accounted(job: Job, h: History) {
    && h.finishes <= MAX_ATTEMPTS
    && (job.state == Ready ==> h.finishes == job.attempts)
    && (forall id :: id in h.outstanding <==> id in job.invalidTargets)
    && (h.permanent <==> job.hasPermanentFailure)
  }

  ghost predicate DocOk(key: Key, job: Job, h: History, used: set<string>) {
    KeyOf(job) == key && Sound(job) && TokenMatches(job, h, used) && DueOnDate(job) && Accounted(job, h)
  }

  ghost predicate ClaimOk(s: System, token: string, c: Claim) {
    var key := KeyOf(c.job);
    && token != "" && token in s.used && c.job.leaseToken == token
    && Sound(c.job) && c.job.state == Ready && c.job.dueAt <= c.takenAt < c.job.availableAt && c.takenAt <= s.clock
    && key in s.docs && key in s.hist && c.gen <= s.hist[key].gen
    && (s.hist[key].writer == ByClaim(token) ==> s.docs[key] == c.job && s.hist[key].gen == c.gen)
    && (c.phase.Held? ==>
          c.phase.updated == Delivered(c.job, c.phase.attempt)
          && c.takenAt <= c.phase.attempt.startedAt <= c.phase.attempt.endedAt <= s.clock
          && (c.phase.attempt.lookup.Some? ==> DistinctIds(c.phase.attempt.lookup.value)))
  }

  ghost predicate Inv(s: System) {
    && s.docs.Keys == s.hist.Keys
    && (forall key :: key in s.docs ==> DocOk(key, s.docs[key], s.hist[key], s.used))
    && (forall token :: token in s.claims ==>
          KeyOf(s.claims[token].job) in s.docs && ClaimOk(s, token, s.claims[token]))
  }

  // Only the document and the history of one key change.
  ghost predicate OneKey(s: System, s': System, key: Key) {
    && s'.docs.Keys == s.docs.Keys + {key} && s'.hist.Keys == s.hist.Keys + {key}
    && (forall k :: k in s.docs && k != key ==> s'.docs[k] == s.docs[k])
    && (forall k :: k in s.hist && k != key ==> s'.hist[k] == s.hist[k])
    && s'.clock == s.clock && s.used <= s'.used
  }

  // Claims survive a write of their key by somebody else.
  lemma ClaimsSurvive(s: System, s': System, key: Key)
    requires Inv(s) && OneKey(s, s', key) && key in s'.docs
    requires forall t :: t in s'.claims ==> t in s.claims && s'.claims[t] == s.claims[t]
    requires key in s.hist ==> s.hist[key].gen <= s'.hist[key].gen
    requires forall t :: t in s'.claims ==> KeyOf(s'.claims[t].job) == key ==> s'.hist[key].writer != ByClaim(t)
    requires DocOk(key, s'.docs[key], s'.hist[key], s'.used)
    ensures Inv(s')
  {
    hide DocOk, ClaimOk;
    forall k | k in s'.docs ensures DocOk(k, s'.docs[k], s'.hist[k], s'.used) {
      if k != key {
        UsedGrows(k, s.docs[k], s.hist[k], s.used, s'.used);
      }
    }
    forall t | t in s'.claims ensures KeyOf(s'.claims[t].job) in s'.docs && ClaimOk(s', t, s'.claims[t]) {
      ClaimStays(s, s', key, t);
    }
  }

  lemma ClaimStays(s: System, s': System, key: Key, t: string)
    requires t in s.claims && KeyOf(s.claims[t].job) in s.docs && ClaimOk(s, t, s.claims[t]) && OneKey(s, s', key)
             && key in s'.docs
    requires key in s.hist ==> s.hist[key].gen <= s'.hist[key].gen
    requires KeyOf(s.claims[t].job) == key ==> s'.hist[key].writer != ByClaim(t)
    ensures ClaimOk(s', t, s.claims[t])
  {
  }

  lemma UsedGrows(key: Key, job: Job, h: History, used: set<string>, used': set<string>)
    requires DocOk(key, job, h, used) && used <= used'
    ensures DocOk(key, job, h, used')
  {
  }

  lemma PutKeepsInv(s: System, uid: string, id: string, daily: Option<Daily>, at: int, message: Message, shard: nat,
                    now: int, put: Submission)
    requires Inv(s) && NewJob(uid, id, daily, at, message, shard, now).Some?
    ensures Inv(ApplyPut(s, NewJob(uid, id, daily, at, message, shard, now).value, put))
  {
    hide OccursAt, LocalDate, ClaimOk;
    var job := NewJob(uid, id, daily, at, message, shard, now).value;
    assert DueOnDate(job);
    ClaimsSurvive(s, ApplyPut(s, job, put), KeyOf(job));
  }

  lemma CanceledDoc(key: Key, job: Job, h: History, used: set<string>, now: int)
    requires DocOk(key, job, h, used)
    ensures DocOk(key, job.(state := Canceled, leaseToken := "", updatedAt := now), h.(writer := ByCancel), used)
  {
  }

  lemma CancelKeepsInv(s: System, key: Key, now: int)
    requires Inv(s)
    ensures Inv(Apply(s, Cancel(key, now)))
  {
    hide DocOk, ClaimOk;
    if key in s.docs {
      CanceledDoc(key, s.docs[key], s.hist[key], s.used, now);
      ClaimsSurvive(s, Apply(s, Cancel(key, now)), key);
    }
  }

  lemma LeasedDoc(s: System, key: Key, shard: nat, token: string, now: int, lease: int)
    requires Inv(s) && Legal(s, TakeLease(key, shard, token, now, lease)) && Claimable(s.docs, key, shard, now)
    ensures key in s.hist && KeyOf(s.docs[key]) == key && Sound(Leased(s.docs[key], token, now, lease))
            && s.docs[key].dueAt <= now
    ensures DocOk(key, Leased(s.docs[key], token, now, lease), s.hist[key].(writer := ByClaim(token)), s.used + {token})
  {
  }

  lemma TakeKeepsInv(s: System, key: Key, shard: nat, token: string, now: int, lease: int)
    requires Inv(s) && Legal(s, TakeLease(key, shard, token, now, lease))
    ensures Inv(ApplyTake(s, key, shard, token, now, lease))
  {
    hide DocOk, ClaimOk;
    var s' := ApplyTake(s, key, shard, token, now, lease);
    if Claimable(s.docs, key, shard, now) {
      LeasedDoc(s, key, shard, token, now, lease);
      var middle := s'.(claims := s.claims);
      forall t | t in s.claims ensures t != token {
        TokenTaken(s, t);
      }
      ClaimsSurvive(s, middle, key);
      forall t | t in s'.claims ensures KeyOf(s'.claims[t].job) in s'.docs && ClaimOk(s', t, s'.claims[t]) {
        if t == token {
          NewClaimOk(s, key, shard, token, now, lease);
        } else {
          OtherClaims(middle, s', t);
        }
      }
    } else {
      OnlyUsedGrows(s, s');
    }
  }

  lemma TokenTaken(s: System, t: string)
    requires Inv(s) && t in s.claims
    ensures t in s.used
  {
  }

  lemma NewClaimOk(s: System, key: Key, shard: nat, token: string, now: int, lease: int)
    requires Inv(s) && Legal(s, TakeLease(key, shard, token, now, lease)) && Claimable(s.docs, key, shard, now)
    ensures var s' := ApplyTake(s, key, shard, token, now, lease);
            token in s'.claims && KeyOf(s'.claims[token].job) == key && key in s'.docs
            && ClaimOk(s', token, s'.claims[token])
  {
    hide DocOk, Sound, Delivered, DistinctIds;
    LeasedDoc(s, key, shard, token, now, lease);
  }

  // Other claims do not matter to a claim.
  lemma OtherClaims(s: System, s': System, t: string)
    requires t in s.claims && t in s'.claims && s == s'.(claims := s.claims) && s'.claims[t] == s.claims[t]
    requires KeyOf(s.claims[t].job) in s.docs && ClaimOk(s, t, s.claims[t])
    ensures ClaimOk(s', t, s'.claims[t])
  {
  }

  lemma OnlyUsedGrows(s: System, s': System)
    requires Inv(s) && s.used <= s'.used && s' == s.(used := s'.used)
    ensures Inv(s')
  {
  }

  lemma WorkKeepsInv(s: System, token: string, a: Attempt)
    requires Inv(s) && Legal(s, Work(token, a))
    ensures Inv(ApplyWork(s, token, a))
  {
    hide DocOk, Sound, Delivered, DistinctIds, IdsSent;
    var s' := ApplyWork(s, token, a);
    forall t | t in s'.claims ensures KeyOf(s'.claims[t].job) in s'.docs && ClaimOk(s', t, s'.claims[t]) {
      assert ClaimOk(s, t, s.claims[t]);
    }
  }

  lemma ClockKeepsInv(s: System, to: int)
    requires Inv(s) && s.clock <= to
    ensures Inv(s.(clock := to))
  {
  }

  lemma CrashKeepsInv(s: System, token: string)
    requires Inv(s)
    ensures Inv(s.(claims := s.claims - {token}))
  {
  }

  // ---- Finishing -----------------------------------------------------------------------------

  lemma HolderIsLastWriter(s: System, token: string)
    requires Inv(s) && token in s.claims
    ensures var c := s.claims[token];
            HoldsLease(s.docs, c.job) <==> s.hist[KeyOf(c.job)].writer == ByClaim(token)
  {
  }

  lemma AccountedAfter(job: Job, h: History, token: string, a: Attempt)
    requires Accounted(job, h) && Sound(job) && job.state == Ready && Timed(job, a)
    requires a.lookup.Some? ==> DistinctIds(a.lookup.value)
    ensures Accounted(Delivered(job, a), AfterFinish(h, token, job, a))
  {
    hide Delivered, ReportsUnregistered, ReportsPermanent, DisabledBy, EndingOf, DistinctIds, Timed, Sound, IsNext;
    AttemptEnds(job, a);
    forall id
      ensures id in AfterFinish(h, token, job, a).outstanding <==> id in Delivered(job, a).invalidTargets
    {
      if id in h.outstanding || id in Reports(job, a) { AttemptConserves(job, a, id); }
      if id in Delivered(job, a).invalidTargets { WaitingWasReported(job, a, id); }
    }
    PermanentExactly(job, a);
    AttemptLeaves(job, a);
    assert job.attempts < MAX_ATTEMPTS by { SoundReady(job); }
    if Delivered(job, a).state == Ready { SoundReady(Delivered(job, a)); }
  }

  lemma SoundReady(job: Job)
    requires Sound(job) && job.state == Ready
    ensures job.attempts < MAX_ATTEMPTS
  {
  }

  lemma FinishedDoc(key: Key, job: Job, h: History, used: set<string>, token: string, a: Attempt)
    requires DocOk(key, job, h, used) && job.state == Ready && Timed(job, a)
    requires a.lookup.Some? ==> DistinctIds(a.lookup.value)
    ensures DocOk(key, Delivered(job, a), AfterFinish(h, token, job, a), used)
  {
    hide Delivered, ReportsUnregistered, ReportsPermanent, DisabledBy, EndingOf, DistinctIds, Timed, Sound, Accounted,
         OccursAt, LocalDate;
    AttemptEnds(job, a);
    AccountedAfter(job, h, token, a);
  }

  // The document a claim still holds, and what the attempt leaves of it.
  lemma HeldDoc(s: System, token: string)
    requires Inv(s) && Legal(s, Finish(token)) && HoldsLease(s.docs, s.claims[token].job)
    ensures var c := s.claims[token];
            var key := KeyOf(c.job);
            && key in s.docs && key in s.hist && s.docs[key] == c.job && s.hist[key].writer == ByClaim(token)
            && Sound(c.job) && c.job.state == Ready && Timed(c.job, c.phase.attempt)
            && DocOk(key, c.job, s.hist[key], s.used)
            && c.phase.updated == Delivered(c.job, c.phase.attempt)
            && (c.phase.attempt.lookup.Some? ==> DistinctIds(c.phase.attempt.lookup.value))
  {
  }

  lemma FinishKeepsInv(s: System, token: string)
    requires Inv(s) && Legal(s, Finish(token))
    ensures Inv(ApplyFinish(s, token))
  {
    hide Delivered, AfterFinish, Sound, DocOk, ClaimOk, DistinctIds, HoldsLease;
    var c := s.claims[token];
    var s' := ApplyFinish(s, token);
    if HoldsLease(s.docs, c.job) {
      var key := KeyOf(c.job);
      HeldDoc(s, token);
      AttemptEnds(c.job, c.phase.attempt);
      FinishedDoc(key, c.job, s.hist[key], s.used, token, c.phase.attempt);
      AfterFinishWriter(s.hist[key], token, c.job, c.phase.attempt);
      ClaimsSurvive(s, s', key);
    } else {
      CrashKeepsInv(s, token);
    }
  }

  lemma AfterFinishWriter(h: History, token: string, job: Job, a: Attempt)
    ensures AfterFinish(h, token, job, a).writer == ByFinish(token) && AfterFinish(h, token, job, a).gen == h.gen
  {
  }

  lemma StepKeepsInv(s: System, step: Step)
    requires Inv(s) && Legal(s, step)
    ensures Inv(Apply(s, step))
  {
    hide Inv, ApplyPut, ApplyTake, ApplyWork, ApplyFinish, NewJob, DistinctIds;
    match step
    case Put(uid, id, daily, at, message, shard, now) =>
      if NewJob(uid, id, daily, at, message, shard, now).Some? {
        PutKeepsInv(s, uid, id, daily, at, message, shard, now, Submission(daily, at, message, shard, now));
      }
    case Cancel(key, now) => CancelKeepsInv(s, key, now);
    case Advance(to) => ClockKeepsInv(s, to);
    case TakeLease(key, shard, token, now, lease) => TakeKeepsInv(s, key, shard, token, now, lease);
    case Work(token, a) => WorkKeepsInv(s, token, a);
    case Finish(token) => FinishKeepsInv(s, token);
    case Crash(token) => CrashKeepsInv(s, token);
  }

  lemma {:induction false} RunKeepsInv(s: System, steps: seq<Step>)
    requires Inv(s) && Run(s, steps)
    ensures Inv(Exec(s, steps))
    decreases steps
  {
    hide Inv, Legal, Apply;
    if steps != [] {
      StepKeepsInv(s, steps[0]);
      RunKeepsInv(Apply(s, steps[0]), steps[1..]);
    }
  }

  lemma Reachable(steps: seq<Step>)
    requires Run(Init(), steps)
    ensures Inv(Exec(Init(), steps))
  {
    RunKeepsInv(Init(), steps);
  }

  lemma {:induction false} ExecConcat(s: System, a: seq<Step>, b: seq<Step>)
    requires Run(s, a) && Run(Exec(s, a), b)
    ensures Run(s, a + b) && Exec(s, a + b) == Exec(Exec(s, a), b)
    decreases a
  {
    hide Legal, Apply;
    if a == [] {
      assert a + b == b;
    } else {
      assert (a + b)[1..] == a[1..] + b;
      ExecConcat(Apply(s, a[0]), a[1..], b);
    }
  }
}
