/** The parts together: the worker asks the store for targets, hands them to the dispatcher,
    and judges the occurrence by its answer; a client's calls arrive at the store. */
module Composition {
  import opened Push
  import opened Ordering
  import Installations
  import Ownership
  import Dispatcher
  import RetrySpec
  import Fcm
  import Pool
  import Recurrence
  import W = Worker
  import C = ClientLog
  import Android
  import Ios

  // ---- Targets found in the store ------------------------------------------------------------

  // The active targets of a user, in id order.
  ghost predicate Lookup(s: Ownership.State, uid: string, now: int, targets: seq<Target>) {
    var m := Ownership.StoredFor(s, uid);
    && (forall t :: t in targets <==>
          t.id in m && m[t.id].ActiveAt(now) && t == Installations.TargetOf(uid, t.id, m[t.id]))
    && (forall i, j :: 0 <= i < j < |targets| ==> Less(targets[i].id, targets[j].id))
  }

  // No user: no targets.
  method ActiveTargets(store: Ownership.Store, uid: string, now: int) returns (targets: seq<Target>)
    ensures Lookup(store.Contents(), uid, now, targets)
  {
    if uid !in store.users {
      return [];
    }
    targets := Installations.ActiveTargets(store.users[uid], uid, now);
  }

  ghost predicate Clean(targets: seq<Target>) {
    W.DistinctIds(targets) && DistinctKeys(targets) && AllValid(targets)
  }

  // Ids are digests of type and address, so distinct entries have distinct addresses and
  // the dispatcher neither rejects nor drops any of them.
  lemma LookupIsClean(digest: Ownership.Digest, c: Ownership.Config, s: Ownership.State, uid: string, now: int,
                      targets: seq<Target>)
    requires Ownership.Inv(digest, c, s) && Lookup(s, uid, now, targets)
    ensures Clean(targets)
  {
    hide Key, Installations.Installation.Address;
    LessStrictTotal();
    forall t | t in targets ensures t.Valid() && t.id == digest(t.targetType, t.address) {
      assert Ownership.Live(s, uid, t.id);
    }
    forall i, j | 0 <= i < j < |targets| ensures targets[i].id != targets[j].id && Key(targets[i]) != Key(targets[j]) {
      assert Less(targets[i].id, targets[j].id);
      assert targets[i] in targets && targets[j] in targets;
      KeyIdentifiesAddress(targets[i], targets[j]);
    }
  }

  lemma PendingIsClean(completed: seq<string>, targets: seq<Target>)
    requires Clean(targets)
    ensures Clean(W.Pending(completed, targets))
  {
    hide Key, W.Pending, W.DistinctIds, DistinctKeys, Target.Valid;
    W.PendingDistinct(completed, targets);
    PendingKeys(completed, targets);
  }

  lemma {:induction false} PendingKeys(completed: seq<string>, targets: seq<Target>)
    requires DistinctKeys(targets)
    ensures DistinctKeys(W.Pending(completed, targets))
  {
    hide Key;
    if targets != [] {
      var n := |targets| - 1;
      PendingKeys(completed, targets[..n]);
      var rest := W.Pending(completed, targets[..n]);
      forall i | 0 <= i < |rest| ensures Key(rest[i]) != Key(targets[n]) {
        assert rest[i] in targets[..n];
        var j :| 0 <= j < n && targets[j] == rest[i];
      }
    }
  }

  // ---- The dispatcher's answer as the worker sees it -------------------------------------------

  function AsReply(r: Pool.SendResult): W.SendReply {
    match r
    case Rejected => W.SendReply([], true)
    case Sent(result, errors) => W.SendReply(result.results, errors != [])
  }

  // The attempt was sent through the dispatcher.
  ghost predicate Dispatched(job: W.Job, a: W.Attempt) {
    exists r :: W.ReplyTo(job, a) == AsReply(r) && Pool.AnswersAll(Pool.Unique(W.Sent(job, a)), r)
  }

  // One result per target, in order.
  ghost predicate Aligned(targets: seq<Target>, results: seq<TargetResult>) {
    |results| == |targets| && forall i :: 0 <= i < |targets| ==> results[i].target == targets[i]
  }

  function AckCount(results: seq<TargetResult>): nat {
    if results == [] then 0
    else AckCount(results[..|results| - 1]) + (if W.Acknowledges(results[|results| - 1]) then 1 else 0)
  }

  lemma {:induction false} AckAll(results: seq<TargetResult>)
    ensures AckCount(results) <= |results|
    ensures AckCount(results) == |results| <==> forall r :: r in results ==> W.Acknowledges(r)
  {
    if results != [] {
      var n := |results| - 1;
      AckAll(results[..n]);
      assert results == results[..n] + [results[n]];
    }
  }

  // The worker accepts each of the aligned results, whatever order the ids have.
  lemma {:induction false} AlignedTally(job: W.Job, targets: seq<Target>, results: seq<TargetResult>, k: nat)
    requires W.DistinctIds(targets) && Aligned(targets, results) && k <= |targets|
    ensures var t := W.CountAll(W.Start(job, targets), results[..k]);
            && t.acked == AckCount(results[..k])
            && forall i :: k <= i < |targets| ==> targets[i].id in t.expected && t.expected[targets[i].id] == targets[i]
  {
    if k == 0 {
      forall i | 0 <= i < |targets|
        ensures targets[i].id in W.ById(targets) && W.ById(targets)[targets[i].id] == targets[i]
      {
        W.ByIdDistinct(targets, targets[i]);
      }
    } else {
      AlignedTally(job, targets, results, k - 1);
      assert results[..k][..k - 1] == results[..k - 1];
      assert results[k - 1].target == targets[k - 1];
    }
  }

  ghost predicate Clear(results: seq<TargetResult>) {
    forall r :: r in results ==> (r.code == NoError && r.err.None?) || r.code == Unregistered || r.code == Permanent
  }

  ghost predicate KnownCodes(results: seq<TargetResult>) {
    forall r :: r in results ==> !r.code.OtherCode?
  }

  lemma DispatchedAnswers(digest: Ownership.Digest, c: Ownership.Config, s: Ownership.State, now: int, job: W.Job,
                          a: W.Attempt)
    requires Ownership.Inv(digest, c, s) && a.lookup.Some? && Lookup(s, job.recipientId, now, a.lookup.value)
    requires Dispatched(job, a)
    ensures W.DistinctIds(W.Sent(job, a)) && Aligned(W.Sent(job, a), W.ReplyTo(job, a).results)
    ensures Judged(W.ReplyTo(job, a))
  {
    hide Ownership.Inv, Lookup, Pool.Unique, W.Pending, W.DistinctIds, W.MessageForOccurrence, DistinctKeys, AllValid,
         Dispatcher.SuccessCount;
    LookupIsClean(digest, c, s, job.recipientId, now, a.lookup.value);
    PendingIsClean(job.completed, a.lookup.value);
    Pool.UniqueIsDistinct(W.Sent(job, a));
  }

  // Results without a code carry no error, and an error is reported exactly when some
  // result is retryable or unknown.
  ghost predicate Judged(reply: W.SendReply) {
    && (forall r :: r in reply.results ==> r.code == NoError ==> r.err.None?)
    && (reply.failed <==> exists r :: r in reply.results && Dispatcher.UnresolvedCode(r.code))
  }

  lemma JudgedCodes(reply: W.SendReply)
    requires Judged(reply)
    ensures Clear(reply.results) <==> !reply.failed && KnownCodes(reply.results)
  {
  }

  lemma SentTally(job: W.Job, a: W.Attempt)
    requires W.DistinctIds(W.Sent(job, a)) && Aligned(W.Sent(job, a), W.ReplyTo(job, a).results)
    ensures W.TallyOf(job, a).acked == AckCount(W.ReplyTo(job, a).results)
  {
    hide W.CountAll, W.Pending, AckCount, W.Start, W.DistinctIds;
    var results := W.ReplyTo(job, a).results;
    assert results[..|results|] == results;
    AlignedTally(job, W.Sent(job, a), results, |results|);
  }

  // Every pending target gets exactly one result, equal to it and in its place; no target is
  // left unresolved exactly when every result acknowledges its target; and the dispatcher
  // reports an error exactly when targets are left, but for results that are neither
  // retryable nor unknown and yet carry a code outside the declared ones.
  lemma WorkerAgreesWithDispatcher(digest: Ownership.Digest, c: Ownership.Config, s: Ownership.State, now: int,
                                   job: W.Job, a: W.Attempt)
    requires Ownership.Inv(digest, c, s) && a.lookup.Some? && Lookup(s, job.recipientId, now, a.lookup.value)
    requires Dispatched(job, a)
    ensures var reply := W.ReplyTo(job, a);
            var missing := |W.Sent(job, a)| - W.TallyOf(job, a).acked;
            && Aligned(W.Sent(job, a), reply.results)
            && (missing <= 0 <==> Clear(reply.results)) && missing >= 0
            && ((reply.failed <==> missing > 0) <==> (reply.failed || KnownCodes(reply.results)))
  {
    hide Ownership.Inv, Lookup, Dispatched, W.TallyOf, W.Sent, W.ReplyTo, AckCount, Clear, KnownCodes, Judged,
         W.DistinctIds;
    DispatchedAnswers(digest, c, s, now, job, a);
    SentTally(job, a);
    AckAll(W.ReplyTo(job, a).results);
    ClearMeans(W.ReplyTo(job, a).results);
    JudgedCodes(W.ReplyTo(job, a));
  }

  lemma ClearMeans(results: seq<TargetResult>)
    ensures Clear(results) <==> forall r :: r in results ==> W.Acknowledges(r)
  {
  }

  // An occurrence is left as done, advanced or failed for good exactly when every result
  // acknowledges its target and no cleanup failed; then every installation that was active
  // at lookup is acknowledged, in this attempt or in one before.
  lemma OccurrenceEndsExactly(digest: Ownership.Digest, c: Ownership.Config, s: Ownership.State, now: int, job: W.Job,
                              a: W.Attempt)
    requires Ownership.Inv(digest, c, s) && a.lookup.Some? && Lookup(s, job.recipientId, now, a.lookup.value)
    requires Dispatched(job, a)
    ensures var ending := W.EndingOf(job, a);
            (ending.Finished? || ending.Advanced? || ending.Broken?) <==>
            Clear(W.ReplyTo(job, a).results) && !W.CleanupFailed(job, a)
    ensures var m := Ownership.StoredFor(s, job.recipientId);
            var ending := W.EndingOf(job, a);
            ending.Finished? || ending.Advanced? || ending.Broken? ==>
              forall id :: id in m && m[id].ActiveAt(now) ==>
                id in job.completed
                || AcknowledgedAs(Installations.TargetOf(job.recipientId, id, m[id]), W.ReplyTo(job, a).results)
  {
    hide Ownership.Inv, Dispatched, W.TallyOf, W.ReplyTo, AckCount, Judged, KnownCodes, W.DistinctIds,
         Installations.Installation.ActiveAt, Installations.Installation.Address, W.CleanupFailed, Recurrence.NextDue;
    DispatchedAnswers(digest, c, s, now, job, a);
    WorkerAgreesWithDispatcher(digest, c, s, now, job, a);
    JudgedCodes(W.ReplyTo(job, a));
    var m := Ownership.StoredFor(s, job.recipientId);
    if Clear(W.ReplyTo(job, a).results) {
      forall id | id in m && m[id].ActiveAt(now)
        ensures id in job.completed
                || AcknowledgedAs(Installations.TargetOf(job.recipientId, id, m[id]), W.ReplyTo(job, a).results)
      {
        var t := Installations.TargetOf(job.recipientId, id, m[id]);
        assert t in a.lookup.value;
        if id !in job.completed {
          assert t in W.Sent(job, a);
          var i :| 0 <= i < |W.Sent(job, a)| && W.Sent(job, a)[i] == t;
          assert W.ReplyTo(job, a).results[i] in W.ReplyTo(job, a).results;
        }
      }
    }
  }

  ghost predicate AcknowledgedAs(t: Target, results: seq<TargetResult>) {
    exists r :: r in results && r.target == t
                && ((r.code == NoError && r.err.None?) || r.code == Unregistered || r.code == Permanent)
  }

  // ---- Cleanup reaches the store ---------------------------------------------------------------

  ghost predicate Pairs(refs: seq<Ref>, ids: seq<string>, uid: string) {
    |refs| == |ids| && forall i :: 0 <= i < |ids| ==> refs[i] == Ref(uid, ids[i])
  }

  // What the worker asks the store to retire is exactly what it holds as invalid, under the
  // recipient.
  lemma {:induction false} RefsFollowIds(t: W.Tally, results: seq<TargetResult>, uid: string)
    requires Pairs(t.refs, t.invalid, uid)
    requires forall id :: id in t.expected ==> t.expected[id].recipientId == uid
    ensures var end := W.CountAll(t, results);
            && Pairs(end.refs, end.invalid, uid)
            && forall id :: id in end.expected ==> end.expected[id].recipientId == uid
  {
    if results != [] {
      RefsFollowIds(t, results[..|results| - 1], uid);
    }
  }

  // When the store retires what an attempt reported, every installation reported then or
  // waiting from before is silent for the recipient, whichever transactions were needed.
  lemma CleanupSilences(digest: Ownership.Digest, c: Ownership.Config, s: Ownership.State, now: int, job: W.Job,
                        a: W.Attempt, later: Ownership.State, at: int, id: string)
    requires a.lookup.Some? && Lookup(s, job.recipientId, now, a.lookup.value) && job.recipientId != ""
    requires id in W.TallyOf(job, a).invalid && id != ""
    requires Ownership.Inv(digest, c, later)
    ensures !Ownership.Live(Ownership.Swept(later, W.TallyOf(job, a).refs, at, iset{}), job.recipientId, id)
  {
    hide W.CountAll, Ownership.Swept, Ownership.Inv, Ownership.Live, Installations.Installation.ActiveAt,
         Installations.Installation.Address;
    var pending := W.Sent(job, a);
    forall x | x in W.ById(pending) ensures W.ById(pending)[x].recipientId == job.recipientId {
      W.ByIdOf(pending, x);
    }
    W.RefsOfIds(job.recipientId, job.invalidTargets);
    RefsFollowIds(W.Start(job, pending), W.ReplyTo(job, a).results, job.recipientId);
    var t := W.TallyOf(job, a);
    var i :| 0 <= i < |t.invalid| && t.invalid[i] == id;
    assert t.refs[i] in t.refs && id in Ownership.IdsFor(t.refs, job.recipientId);
    Ownership.SweepRetiresExactly(digest, c, later, t.refs, at, iset{});
  }

  // ---- From the sender to the worker -----------------------------------------

  // The codes a round can hand out are those of its reply.
  ghost predicate KnownReply(reply: Dispatcher.Reply) {
    (forall r :: r in reply.results ==> !r.code.OtherCode?) && !SendErrorCode(reply.err).OtherCode?
  }

  lemma {:induction false} FinalCodesKnown(rounds: seq<Dispatcher.Round>, t: Target)
    requires forall i :: 0 <= i < |rounds| ==> KnownReply(rounds[i].reply)
    ensures var r := Dispatcher.FinalOf(rounds, t); r.Some? ==> !r.value.code.OtherCode?
  {
    if rounds != [] {
      var n := |rounds| - 1;
      FinalCodesKnown(rounds[..n], t);
      var last := rounds[n];
      Dispatcher.LastResultSome(last.reply.results, Key(t), last.more, true);
      Dispatcher.LastResultSome(last.reply.results, Key(t), last.more, false);
    }
  }

  lemma AdapterCodesKnown(client: Fcm.Client, messageError: Option<Error>, attempt: nat, targets: seq<Target>)
    requires messageError.Some? ==> messageError.value.Plain?
    ensures KnownReply(Fcm.AdapterReply(client, messageError, attempt, targets))
  {
    hide Fcm.Ordered, Fcm.OfType, Fcm.Addresses;
  }

  // Every reply of the sender keeps to the declared codes.
  ghost predicate KnownSender(p: Dispatcher.Provider) {
    forall attempt: nat, pending: seq<Target> :: KnownReply(p.respond(attempt, pending))
  }

  lemma BatchCodesKnown(p: Dispatcher.Provider, max: nat, batch: seq<Target>, t: Target)
    requires max >= 1 && KnownSender(p)
    ensures var r := Dispatcher.FinalOf(Dispatcher.Rounds(p, max, 1, batch), t); r.Some? ==> !r.value.code.OtherCode?
  {
    hide Dispatcher.FinalOf, Dispatcher.Rounds, KnownReply;
    var rounds := Dispatcher.Rounds(p, max, 1, batch);
    Dispatcher.RoundsEnd(p, max, 1, batch);
    if batch != [] { Dispatcher.RoundsLinked(p, max, 1, batch, rounds); }
    forall i | 0 <= i < |rounds| ensures KnownReply(rounds[i].reply) {
      assert KnownReply(p.respond(rounds[i].attempt, rounds[i].pending));
    }
    FinalCodesKnown(rounds, t);
  }

  // The attempt was sent through the dispatcher, to these providers.
  ghost predicate DispatchedTo(providers: nat -> Dispatcher.Provider, max: nat, job: W.Job, a: W.Attempt)
    requires max >= 1
  {
    exists r :: Answered(providers, max, W.Sent(job, a), W.ReplyTo(job, a), r)
  }

  ghost predicate Answered(providers: nat -> Dispatcher.Provider, max: nat, targets: seq<Target>,
                           reply: W.SendReply, r: Pool.SendResult)
    requires max >= 1
  {
    reply == AsReply(r) && Pool.AnswersAll(Pool.Unique(targets), r)
    && Pool.AnswersInPlace(providers, max, Pool.Unique(targets), r.result.results)
  }

  lemma SentCodesKnown(providers: nat -> Dispatcher.Provider, max: nat, targets: seq<Target>,
                       results: seq<TargetResult>)
    requires max >= 1 && Pool.AnswersInPlace(providers, max, targets, results)
    requires forall c: nat :: KnownSender(providers(c))
    ensures KnownCodes(results)
  {
    hide Dispatcher.FinalOf, Dispatcher.Rounds, KnownSender, Pool.Chunks;
    forall r | r in results ensures !r.code.OtherCode? {
      var i :| 0 <= i < |results| && results[i] == r;
      BatchCodesKnown(providers(i / 500), max, Pool.Chunks(targets, MAX_BATCH_TARGETS)[i / 500], targets[i]);
    }
  }

  // From the sender to the worker: when every provider keeps to the declared codes, the
  // dispatcher reports an error exactly when the worker is left with unresolved targets.
  lemma KnownSendersAgree(digest: Ownership.Digest, c: Ownership.Config, s: Ownership.State, now: int, job: W.Job,
                          a: W.Attempt, providers: nat -> Dispatcher.Provider, max: nat)
    requires Ownership.Inv(digest, c, s) && a.lookup.Some? && Lookup(s, job.recipientId, now, a.lookup.value)
    requires max >= 1 && DispatchedTo(providers, max, job, a) && forall i: nat :: KnownSender(providers(i))
    ensures W.ReplyTo(job, a).failed <==> |W.Sent(job, a)| - W.TallyOf(job, a).acked > 0
  {
    hide Ownership.Inv, Lookup, W.TallyOf, W.Sent, W.ReplyTo, KnownSender, Pool.Unique, Pool.AnswersAll,
         Pool.AnswersInPlace;
    var r :| Answered(providers, max, W.Sent(job, a), W.ReplyTo(job, a), r);
    SomeResult(Pool.Unique(W.Sent(job, a)), r);
    SentCodesKnown(providers, max, Pool.Unique(W.Sent(job, a)), r.result.results);
    WorkerAgreesWithDispatcher(digest, c, s, now, job, a);
  }

  lemma SomeResult(targets: seq<Target>, r: Pool.SendResult)
    requires Pool.AnswersAll(targets, r)
    ensures r.Sent?
  {
  }

  // ---- When they disagree ------------------------------------------------------------------------

  // The code the sender gave the i-th target last, in the batch at its place.
  ghost function CodeGiven(providers: nat -> Dispatcher.Provider, max: nat, targets: seq<Target>, i: nat): ErrorCode
    requires max >= 1 && i < |targets|
  {
    Pool.ChunkHolds(targets, i);
    var batch := Pool.Chunks(targets, MAX_BATCH_TARGETS)[i / 500];
    var last := RetrySpec.LastOutcome(Dispatcher.Rounds(providers(i / 500), max, 1, batch), targets[i]);
    if last.Some? then last.value.code else NoError
  }

  lemma ResultHasCodeGiven(providers: nat -> Dispatcher.Provider, max: nat, targets: seq<Target>,
                           results: seq<TargetResult>, i: nat)
    requires max >= 1 && Pool.AnswersInPlace(providers, max, targets, results) && i < |targets|
    requires DistinctKeys(targets) && AllValid(targets) && forall c: nat :: RetrySpec.SenderContract(providers(c))
    ensures results[i].code == CodeGiven(providers, max, targets, i)
  {
    hide Key, Dispatcher.FinalOf, Dispatcher.Rounds, Pool.Chunks, RetrySpec.LastOutcome, RetrySpec.SenderContract;
    Pool.ChunkHolds(targets, i);
    Pool.ChunksPartition(targets, MAX_BATCH_TARGETS);
    Pool.ChunkDistinct(Pool.Chunks(targets, MAX_BATCH_TARGETS), i / 500);
    RetrySpec.LastOutcomeDecides(providers(i / 500), max, Pool.Chunks(targets, MAX_BATCH_TARGETS)[i / 500], targets[i]);
  }

  // No answer asks for another attempt or is unknown, and yet one code is not a declared one.
  ghost predicate Misleading(providers: nat -> Dispatcher.Provider, max: nat, targets: seq<Target>)
    requires max >= 1
  {
    && (forall i :: 0 <= i < |targets| ==> CodeGiven(providers, max, targets, i) !in {Transient, RateLimited, Unknown})
    && exists i :: 0 <= i < |targets| && CodeGiven(providers, max, targets, i).OtherCode?
  }

  // In terms of the senders' replies alone: dispatcher and worker disagree exactly when none
  // of the last answers to the targets is retryable or unknown and one has an undeclared code.
  lemma DisagreeExactly(digest: Ownership.Digest, c: Ownership.Config, s: Ownership.State, now: int, job: W.Job,
                        a: W.Attempt, providers: nat -> Dispatcher.Provider, max: nat)
    requires Ownership.Inv(digest, c, s) && a.lookup.Some? && Lookup(s, job.recipientId, now, a.lookup.value)
    requires max >= 1 && DispatchedTo(providers, max, job, a)
    requires forall i: nat :: RetrySpec.SenderContract(providers(i))
    ensures (W.ReplyTo(job, a).failed <==> |W.Sent(job, a)| - W.TallyOf(job, a).acked > 0) <==>
            !Misleading(providers, max, W.Sent(job, a))
  {
    hide Ownership.Inv, Lookup, W.TallyOf, W.Sent, W.ReplyTo, Pool.Unique, Pool.AnswersAll, Pool.AnswersInPlace,
         CodeGiven, RetrySpec.SenderContract, DistinctKeys, AllValid, W.DistinctIds;
    var targets := W.Sent(job, a);
    SentIsClean(digest, c, s, now, job, a);
    var r :| Answered(providers, max, targets, W.ReplyTo(job, a), r);
    SomeResult(targets, r);
    var results := r.result.results;
    InPlaceSize(providers, max, targets, results);
    forall i | 0 <= i < |targets| ensures results[i].code == CodeGiven(providers, max, targets, i) {
      ResultHasCodeGiven(providers, max, targets, results, i);
    }
    WorkerAgreesWithDispatcher(digest, c, s, now, job, a);
    DispatchedAnswers(digest, c, s, now, job, a);
  }

  lemma SentIsClean(digest: Ownership.Digest, c: Ownership.Config, s: Ownership.State, now: int, job: W.Job,
                    a: W.Attempt)
    requires Ownership.Inv(digest, c, s) && a.lookup.Some? && Lookup(s, job.recipientId, now, a.lookup.value)
    ensures Clean(W.Sent(job, a)) && Pool.Unique(W.Sent(job, a)) == W.Sent(job, a)
  {
    hide Ownership.Inv, Lookup, Pool.Unique, W.Pending, W.DistinctIds, DistinctKeys, AllValid;
    LookupIsClean(digest, c, s, job.recipientId, now, a.lookup.value);
    PendingIsClean(job.completed, a.lookup.value);
    Pool.UniqueIsDistinct(W.Sent(job, a));
  }

  lemma InPlaceSize(providers: nat -> Dispatcher.Provider, max: nat, targets: seq<Target>, results: seq<TargetResult>)
    requires max >= 1 && Pool.AnswersInPlace(providers, max, targets, results)
    ensures |results| == |targets|
  {
  }

  // A sender that answers every target with a code of its own and no error.
  function Inventive(t: Target): Dispatcher.Provider {
    Dispatcher.Provider((attempt, pending) => Dispatcher.Reply([TargetResult(t, "", OtherCode("held"), None)], None),
                        (attempt, base) => base, (attempt, delay) => None)
  }

  // They can disagree: sent to one target with such a sender, the worker is left with the
  // target while the dispatcher reports no error.
  lemma UndeclaredCodeDisagrees(t: Target, base: W.Job, max: nat) returns (job: W.Job, a: W.Attempt)
    requires t.Valid() && max >= 1
    ensures job == base.(completed := []) && a.lookup == Some([t])
    ensures RetrySpec.SenderContract(Inventive(t))
    ensures Dispatched(job, a) && DispatchedTo(_ => Inventive(t), max, job, a)
    ensures !W.ReplyTo(job, a).failed && |W.Sent(job, a)| - W.TallyOf(job, a).acked == 1
  {
    hide Pool.AnswersAll, Pool.AnswersInPlace, Pool.Unique, W.TallyOf, W.Sent, RetrySpec.OneResultPerKey;
    var result := TargetResult(t, "", OtherCode("held"), None);
    job := base.(completed := []);
    a := W.Attempt(0, Some([t]), (message, targets) => W.SendReply([result], false), refs => false, 0);
    OneSent(job, a, t, result);
    var r := Pool.Sent(Dispatcher.BatchResult([result], 0, 1), []);
    InventiveAnswers(t, result, max);
    OneAnswerPerKey(t);
    assert Answered(_ => Inventive(t), max, W.Sent(job, a), W.ReplyTo(job, a), r);
  }

  lemma OneAnswerPerKey(t: Target)
    ensures RetrySpec.SenderContract(Inventive(t))
  {
    hide Key;
  }

  lemma OneSent(job: W.Job, a: W.Attempt, t: Target, result: TargetResult)
    requires job.completed == [] && a.lookup == Some([t]) && result == TargetResult(t, "", OtherCode("held"), None)
    requires W.ReplyTo(job, a) == W.SendReply([result], false)
    ensures W.Sent(job, a) == [t] && W.TallyOf(job, a).acked == 0
  {
    assert [t][..0] == [] && [result][..0] == [];
    assert W.Pending([], [t]) == W.Pending([], [t][..0]) + [t] == [t];
    var start := W.Start(job, W.Sent(job, a));
    assert start.acked == 0;
    assert W.CountAll(start, [result][..0]) == start;
    assert W.CountAll(start, [result]) == W.Count(start, result);
    UndeclaredIsNoAck(start, result);
  }

  lemma UndeclaredIsNoAck(s: W.Tally, r: TargetResult)
    requires r.code.OtherCode?
    ensures W.Count(s, r).acked == s.acked
  {
  }

  lemma InventiveAnswers(t: Target, result: TargetResult, max: nat)
    requires t.Valid() && max >= 1 && result == TargetResult(t, "", OtherCode("held"), None)
    ensures Pool.Unique([t]) == [t]
    ensures Pool.AnswersAll([t], Pool.Sent(Dispatcher.BatchResult([result], 0, 1), []))
    ensures Pool.AnswersInPlace(_ => Inventive(t), max, [t], [result])
  {
    hide Key, Dispatcher.Rounds, Dispatcher.FinalOf, Pool.Unique;
    assert [result][..0] == [];
    Pool.UniqueIsDistinct([t]);
    OneInventiveRound(t, result, max);
    assert Pool.Chunks([t], MAX_BATCH_TARGETS) == [[t]];
  }

  lemma OneInventiveRound(t: Target, result: TargetResult, max: nat)
    requires max >= 1 && result == TargetResult(t, "", OtherCode("held"), None)
    ensures Dispatcher.FinalOf(Dispatcher.Rounds(Inventive(t), max, 1, [t]), t) == Some(result)
  {
    hide Key, Dispatcher.RetryCode, Dispatcher.FinalResult;
    var reply := Dispatcher.Reply([result], None);
    AnsweredForGood(t, result, 1 < max);
    assert Dispatcher.RetryTargets(reply, [t], 1 < max) == [];
    var rounds := Dispatcher.Rounds(Inventive(t), max, 1, [t]);
    assert rounds == [Dispatcher.Round(1, [t], reply, 1 < max, None, None)];
    Dispatcher.FinalOfOne(rounds[0], t);
  }

  lemma AnsweredForGood(t: Target, result: TargetResult, more: bool)
    requires result == TargetResult(t, "", OtherCode("held"), None)
    ensures Dispatcher.RetryCode(Dispatcher.Reply([result], None), t, more) == None
    ensures Dispatcher.FinalResult(Dispatcher.Reply([result], None), t, more) == Some(result)
  {
    hide Key;
    assert [result][..0] == [];
    Dispatcher.LastResultSome([result], Key(t), more, true);
  }

  // With the Firebase adapter, whatever the client answers to each batch, they agree.
  lemma AdapterAgrees(digest: Ownership.Digest, c: Ownership.Config, s: Ownership.State, now: int, job: W.Job,
                      a: W.Attempt, providers: nat -> Dispatcher.Provider, max: nat,
                      clients: nat -> Fcm.Client, messageError: Option<Error>)
    requires Ownership.Inv(digest, c, s) && a.lookup.Some? && Lookup(s, job.recipientId, now, a.lookup.value)
    requires max >= 1 && DispatchedTo(providers, max, job, a)
    requires messageError.Some? ==> messageError.value.Plain?
    requires forall i: nat, attempt: nat, pending: seq<Target> ::
               providers(i).respond(attempt, pending) == Fcm.AdapterReply(clients(i), messageError, attempt, pending)
    ensures W.ReplyTo(job, a).failed <==> |W.Sent(job, a)| - W.TallyOf(job, a).acked > 0
  {
    hide Ownership.Inv, Lookup, W.TallyOf, W.Sent, W.ReplyTo, KnownReply, Fcm.AdapterReply, DispatchedTo;
    forall i: nat ensures KnownSender(providers(i)) {
      forall attempt: nat, pending: seq<Target> ensures KnownReply(providers(i).respond(attempt, pending)) {
        AdapterCodesKnown(clients(i), messageError, attempt, pending);
      }
    }
    KnownSendersAgree(digest, c, s, now, job, a, providers, max);
  }

  // ---- Client and store -----------------------------------------------------------------------------

  // The store served the calls of one account's device: each call that was answered is a
  // step of the run, and the account does not register that id again afterwards.
  ghost predicate Served(events: seq<C.Event>, uid: string, steps: seq<Ownership.Step>) {
    forall id :: UnregisteredIn(events, id) ==>
      exists k: nat :: k < |steps| && IsUnregister(steps[k], uid, id) && Ownership.NoUpsertOf(steps[k + 1..], uid, id)
  }

  // A missing installation counts as unregistered.
  ghost predicate UnregisteredIn(events: seq<C.Event>, id: string) {
    C.Unregister(id, C.Ok) in events || C.Unregister(id, C.NotFound) in events
  }

  ghost predicate IsUnregister(step: Ownership.Step, uid: string, id: string) {
    step.DoDisable? && step.uid == uid && step.ids == {id} && step.requireMatch
  }

  // What a run makes of a target it unregistered: nothing brings it back.
  lemma {:induction false} UnregisteredStaysRetired(c: Ownership.Config, s: Ownership.State,
                                                    steps: seq<Ownership.Step>, uid: string, id: string, k: nat)
    requires k < |steps| && IsUnregister(steps[k], uid, id) && Ownership.NoUpsertOf(steps[k + 1..], uid, id)
    ensures !Ownership.Live(Ownership.Exec(c, s, steps), uid, id)
    decreases steps
  {
    hide Ownership.Live;
    var s' := Ownership.Apply(c, s, steps[0]);
    if k == 0 {
      DisabledIsNotLive(c, s, steps[0], uid, id);
      Ownership.StaysRetired(c, s', steps[1..], uid, id);
    } else {
      assert steps[1..][k - 1] == steps[k] && steps[1..][k..] == steps[k + 1..];
      UnregisteredStaysRetired(c, s', steps[1..], uid, id, k - 1);
    }
  }

  lemma DisabledIsNotLive(c: Ownership.Config, s: Ownership.State, step: Ownership.Step, uid: string, id: string)
    requires IsUnregister(step, uid, id)
    ensures !Ownership.Live(Ownership.Apply(c, s, step), uid, id)
  {
    Ownership.RetiredHasNoAddress();
    assert uid in s.users && id in s.users[uid] ==> id in s.users[uid].Keys * step.ids;
  }

  ghost predicate SameTarget(s: Ownership.State, u: string, x: string, v: string, y: string) {
    Ownership.Live(s, u, x) && Ownership.Live(s, v, y)
    && s.users[u][x].targetType == s.users[v][y].targetType && s.users[u][x].Address() == s.users[v][y].Address()
  }

  // After a client unbind that the store served, the old account has no live address for
  // any id the device had saved; a target another account then holds is active for no one
  // else.
  lemma UnboundDeviceIsSilent(digest: Ownership.Digest, c: Ownership.Config, steps: seq<Ownership.Step>,
                              before: Option<C.Binding>, events: seq<C.Event>, uid: string, next: string, id: string)
    requires Ownership.Run(digest, c, Ownership.EMPTY, steps) && Served(events, uid, steps)
    requires forall x :: x in C.Ids(before) ==> UnregisteredIn(events, x)
    requires id in C.Ids(before)
    ensures var s := Ownership.Exec(c, Ownership.EMPTY, steps);
            && !Ownership.Live(s, uid, id)
            && (Ownership.Live(s, next, id) ==> forall u, x :: SameTarget(s, u, x, next, id) ==> u == next && x == id)
  {
    hide Ownership.Run, Ownership.Exec, Ownership.Live, Ownership.NoUpsertOf, Installations.Installation.Address;
    var k: nat :| k < |steps| && IsUnregister(steps[k], uid, id) && Ownership.NoUpsertOf(steps[k + 1..], uid, id);
    UnregisteredStaysRetired(c, Ownership.EMPTY, steps, uid, id, k);
    Ownership.SingleLiveHolder(digest, c, steps);
  }

  // What an unbind of the account achieves, whatever run of the store served its calls: no id
  // the device had saved is live for the account, nobody else shares a target the next
  // account then holds, and no attempt whose lookup is taken there sends to the account
  // under any such id.
  ghost predicate Silenced(digest: Ownership.Digest, c: Ownership.Config, uid: string, before: Option<C.Binding>,
                           events: seq<C.Event>) {
    forall steps | Ownership.Run(digest, c, Ownership.EMPTY, steps) && Served(events, uid, steps) ::
      SilentIn(Ownership.Exec(c, Ownership.EMPTY, steps), uid, C.Ids(before))
  }

  ghost predicate SilentIn(s: Ownership.State, uid: string, ids: set<string>) {
    && (forall id :: id in ids ==> !Ownership.Live(s, uid, id))
    && (forall id, next, u, x :: id in ids && SameTarget(s, u, x, next, id) ==> u == next && x == id)
    && (forall now, job, a :: LooksUp(s, uid, now, job, a) ==> forall t :: t in W.Sent(job, a) ==> t.id !in ids)
  }

  ghost predicate LooksUp(s: Ownership.State, uid: string, now: int, job: W.Job, a: W.Attempt) {
    job.recipientId == uid && a.lookup.Some? && Lookup(s, uid, now, a.lookup.value)
  }

  lemma UnboundMeansSilenced(digest: Ownership.Digest, c: Ownership.Config, uid: string, before: Option<C.Binding>,
                             events: seq<C.Event>)
    requires forall x :: x in C.Ids(before) ==> UnregisteredIn(events, x)
    ensures Silenced(digest, c, uid, before, events)
  {
    hide Ownership.Run, Ownership.Exec, Ownership.Live, Served, UnregisteredIn, C.Ids, SameTarget, LooksUp;
    forall steps | Ownership.Run(digest, c, Ownership.EMPTY, steps) && Served(events, uid, steps)
      ensures SilentIn(Ownership.Exec(c, Ownership.EMPTY, steps), uid, C.Ids(before))
    {
      var s := Ownership.Exec(c, Ownership.EMPTY, steps);
      forall id | id in C.Ids(before) ensures !Ownership.Live(s, uid, id) {
        UnboundDeviceIsSilent(digest, c, steps, before, events, uid, uid, id);
      }
      forall id, next, u, x | id in C.Ids(before) && SameTarget(s, u, x, next, id) ensures u == next && x == id {
        SharedIsLive(s, u, x, next, id);
        UnboundDeviceIsSilent(digest, c, steps, before, events, uid, next, id);
      }
      forall now, job, a | LooksUp(s, uid, now, job, a)
        ensures forall t :: t in W.Sent(job, a) ==> t.id !in C.Ids(before)
      {
        SentIsLive(s, uid, now, job, a);
      }
    }
  }

  lemma SharedIsLive(s: Ownership.State, u: string, x: string, v: string, y: string)
    requires SameTarget(s, u, x, v, y)
    ensures Ownership.Live(s, v, y)
  {
  }

  lemma SentIsLive(s: Ownership.State, uid: string, now: int, job: W.Job, a: W.Attempt)
    requires LooksUp(s, uid, now, job, a)
    ensures forall t :: t in W.Sent(job, a) ==> Ownership.Live(s, uid, t.id)
  {
    hide Installations.Installation.Address;
  }

  // The account of the client is the user of the store.
  method UnbindAndroid(manager: Android.Manager, account: string, ghost digest: Ownership.Digest,
                       ghost c: Ownership.Config)
    returns (r: Android.UnbindResult, ghost events: seq<C.Event>)
    requires manager.Valid()
    modifies manager.device
    ensures manager.Valid() && manager.device.log == old(manager.device.log) + events
    ensures r.Unbound? ==>
              manager.device.saved.None? && Silenced(digest, c, account, old(manager.device.saved), events)
  {
    hide C.Good, C.SavedAt, C.Live, Silenced, Android.Whole;
    ghost var replies;
    r, events, replies := manager.Unbind(account);
    if r.Unbound? { UnboundMeansSilenced(digest, c, account, old(manager.device.saved), events); }
  }

  method UnbindIos(lifecycle: Ios.Lifecycle, user: string, ghost digest: Ownership.Digest, ghost c: Ownership.Config)
    returns (error: Option<Ios.LifecycleError>, ghost events: seq<C.Event>)
    requires lifecycle.device.Settled()
    modifies lifecycle.device
    ensures lifecycle.device.Settled() && lifecycle.device.log == old(lifecycle.device.log) + events
    ensures error.None? ==>
              lifecycle.device.saved.None? && Silenced(digest, c, user, old(lifecycle.device.saved), events)
  {
    hide C.Good, C.SavedAt, C.Live, Silenced;
    error, events := lifecycle.UnbindUserLocked(user);
    if error.None? { UnboundMeansSilenced(digest, c, user, old(lifecycle.device.saved), events); }
  }
}
