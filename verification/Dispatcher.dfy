/** The retry loop of one provider batch: which targets are sent again, after which
    delay, and which result each target ends with. */
module Dispatcher {
  import opened Push

  const TRANSIENT_RETRY_BACKOFF: int := SECOND
  const RATE_LIMIT_RETRY_BACKOFF: int := 60 * SECOND

  // ---- The provider and the clock, as arbitrary answers ------------------------

  datatype Reply = Reply(results: seq<TargetResult>, err: Option<Error>)

  // respond, jitter and wait are called at most once per attempt, so functions of the
  // attempt number describe every sender, every random draw and every cancellation.
  datatype Provider = Provider(
    respond: (nat, seq<Target>) -> Reply,
    jitter: (nat, int) -> int,
    wait: (nat, int) -> Option<Error>)

  datatype BatchResult = BatchResult(results: seq<TargetResult>, successCount: nat, failureCount: nat)

  datatype BatchError = BatchError(unresolved: nat, cause: Option<Error>)

  // ---- Codes and delays -----------------------------------------------------------

  predicate Retryable(code: ErrorCode) {
    code == Transient || code == RateLimited
  }

  predicate UnresolvedCode(code: ErrorCode) {
    Retryable(code) || code == Unknown
  }

  function RetryBackoff(code: ErrorCode, completedAttempt: nat): int {
    var base := if code == RateLimited then RATE_LIMIT_RETRY_BACKOFF else TRANSIENT_RETRY_BACKOFF;
    if completedAttempt <= 1 then base else if completedAttempt == 2 then 2 * base else 4 * base
  }

  // draw is the random source; rand.Int64N(bound + 1) reduces it to 0..bound.
  function BoundedRetryJitter(base: int, draw: nat): int {
    var bound := base * 10 / 100;
    if bound <= 0 then base else base + draw % (bound + 1)
  }

  // A result that carries an error without a code counts as unknown.
  function ResultCode(r: TargetResult): ErrorCode {
    if r.err.Some? && r.code == NoError then Unknown else r.code
  }

  function MissingCode(reply: Reply): ErrorCode {
    if reply.err.Some? then SendErrorCode(reply.err) else Transient
  }

  // ---- One round, described per target ----------------------------------------------

  predicate Retried(r: TargetResult, more: bool) {
    more && Retryable(ResultCode(r))
  }

  predicate Accounted(results: seq<TargetResult>, key: string) {
    exists i :: 0 <= i < |results| && Key(results[i].target) == key
  }

  // The last result for a key that is retried (or, with retried false, that is final).
  function LastResult(results: seq<TargetResult>, key: string, more: bool, retried: bool): Option<TargetResult> {
    if results == [] then None
    else
      var r := results[|results| - 1];
      if Key(r.target) == key && Retried(r, more) == retried then Some(r)
      else LastResult(results[..|results| - 1], key, more, retried)
  }

  function RetryCode(reply: Reply, t: Target, more: bool): Option<ErrorCode> {
    var last := LastResult(reply.results, Key(t), more, true);
    if last.Some? then Some(ResultCode(last.value))
    else if !Accounted(reply.results, Key(t)) && more && Retryable(MissingCode(reply)) then Some(MissingCode(reply))
    else None
  }

  function FinalResult(reply: Reply, t: Target, more: bool): Option<TargetResult> {
    var last := LastResult(reply.results, Key(t), more, false);
    if last.Some? then Some(last.value.(target := t, code := ResultCode(last.value)))
    else if Accounted(reply.results, Key(t)) || (more && Retryable(MissingCode(reply))) then None
    else Some(TargetResult(t, "", MissingCode(reply), Some(MissingError(reply))))
  }

  function MissingError(reply: Reply): Error {
    if reply.err.Some? then reply.err.value else Plain("push provider omitted a target result")
  }

  function RetryTargets(reply: Reply, pending: seq<Target>, more: bool): (r: seq<Target>)
    ensures forall t :: t in r <==> t in pending && RetryCode(reply, t, more).Some?
  {
    if pending == [] then []
    else
      (if RetryCode(reply, pending[0], more).Some? then [pending[0]] else []) + RetryTargets(reply, pending[1..], more)
  }

  predicate AnyRateLimited(reply: Reply, pending: seq<Target>, more: bool) {
    exists t :: t in pending && RetryCode(reply, t, more) == Some(RateLimited)
  }

  function RoundDelay(p: Provider, attempt: nat, reply: Reply, pending: seq<Target>, more: bool): int {
    p.jitter(attempt, RetryBackoff(if AnyRateLimited(reply, pending, more) then RateLimited else Transient, attempt))
  }

  // ---- All rounds of one batch ----------------------------------------------------------

  // wait is the delay requested after the round, cut the error that ended that wait.
  datatype Round = Round(attempt: nat, pending: seq<Target>, reply: Reply, more: bool, wait: Option<int>,
                         cut: Option<Error>)

  function Rounds(p: Provider, max: nat, attempt: nat, pending: seq<Target>): seq<Round>
    requires attempt >= 1
    decreases max + 1 - attempt
  {
    if attempt > max || pending == [] then []
    else
      var reply := p.respond(attempt, pending);
      var more := attempt < max;
      var retry := RetryTargets(reply, pending, more);
      if retry == [] then [Round(attempt, pending, reply, more, None, None)]
      else
        var delay := RoundDelay(p, attempt, reply, pending, more);
        var cut := p.wait(attempt, delay);
        [Round(attempt, pending, reply, more, Some(delay), cut)]
        + (if cut.Some? then [] else Rounds(p, max, attempt + 1, retry))
  }

  // What a target has been given by a prefix of the rounds: the latest final result, or
  // the cancellation of the wait it was parked in.
  function FinalOf(rounds: seq<Round>, t: Target): Option<TargetResult> {
    if rounds == [] then None
    else
      var last := rounds[|rounds| - 1];
      var before := FinalOf(rounds[..|rounds| - 1], t);
      if t !in last.pending then before
      else
        var code := RetryCode(last.reply, t, last.more);
        if last.cut.Some? && code.Some? then Some(TargetResult(t, "", code.value, last.cut))
        else
          var final := FinalResult(last.reply, t, last.more);
          if final.Some? then final else before
  }

  function LastCause(rounds: seq<Round>): Option<Error> {
    if rounds == [] then None
    else
      var last := rounds[|rounds| - 1];
      if last.cut.Some? then last.cut else last.reply.err
  }

  function UnresolvedCount(results: seq<TargetResult>): nat {
    if results == [] then 0
    else UnresolvedCount(results[..|results| - 1]) + (if UnresolvedCode(results[|results| - 1].code) then 1 else 0)
  }

  function SuccessCount(results: seq<TargetResult>): (n: nat)
    ensures n <= |results|
  {
    if results == [] then 0
    else SuccessCount(results[..|results| - 1]) + (if results[|results| - 1].Succeeded() then 1 else 0)
  }

  // ---- Stepping lemmas for the loop -------------------------------------------------------

  lemma LastResultSnoc(results: seq<TargetResult>, i: nat, key: string, more: bool, retried: bool)
    requires i < |results|
    ensures LastResult(results[..i + 1], key, more, retried)
         == if Key(results[i].target) == key && Retried(results[i], more) == retried then Some(results[i])
            else LastResult(results[..i], key, more, retried)
  {
    assert results[..i + 1][..i] == results[..i];
  }

  lemma LastResultSome(results: seq<TargetResult>, key: string, more: bool, retried: bool)
    ensures LastResult(results, key, more, retried).Some? <==>
            exists i :: 0 <= i < |results| && Key(results[i].target) == key && Retried(results[i], more) == retried
    ensures var last := LastResult(results, key, more, retried);
            last.Some? ==>
              last.value in results && Key(last.value.target) == key && Retried(last.value, more) == retried
  {
  }

  lemma RetryTargetsDistinct(reply: Reply, pending: seq<Target>, more: bool)
    requires DistinctKeys(pending)
    ensures DistinctKeys(RetryTargets(reply, pending, more))
  {
    if pending != [] {
      assert DistinctKeys(pending[1..]);
      RetryTargetsDistinct(reply, pending[1..], more);
      var rest := RetryTargets(reply, pending[1..], more);
      forall t | t in rest ensures Key(t) != Key(pending[0]) {
        var j :| 0 <= j < |pending[1..]| && pending[1..][j] == t;
        assert pending[j + 1] == t;
      }
    }
  }

  lemma RetryTargetsSnoc(reply: Reply, a: seq<Target>, t: Target, more: bool)
    ensures RetryTargets(reply, a + [t], more)
         == RetryTargets(reply, a, more) + (if RetryCode(reply, t, more).Some? then [t] else [])
  {
    if a != [] {
      assert (a + [t])[1..] == a[1..] + [t];
      RetryTargetsSnoc(reply, a[1..], t, more);
    }
  }

  // The targets of a set, in the order of the batch.
  ghost function Select(targets: seq<Target>, keep: iset<Target>): seq<Target> {
    if targets == [] then []
    else Select(targets[..|targets| - 1], keep)
         + (if targets[|targets| - 1] in keep then [targets[|targets| - 1]] else [])
  }

  lemma SelectMembers(targets: seq<Target>, keep: iset<Target>)
    ensures forall t :: t in Select(targets, keep) <==> t in targets && t in keep
  {
  }

  lemma SelectAll(targets: seq<Target>, keep: iset<Target>)
    requires forall t :: t in targets ==> t in keep
    ensures Select(targets, keep) == targets
  {
  }

  lemma SelectDistinct(targets: seq<Target>, keep: iset<Target>)
    requires DistinctKeys(targets)
    ensures DistinctKeys(Select(targets, keep))
  {
    if targets != [] {
      var n := |targets| - 1;
      SelectDistinct(targets[..n], keep);
      SelectMembers(targets[..n], keep);
      var rest := Select(targets[..n], keep);
      forall i | 0 <= i < |rest| ensures Key(rest[i]) != Key(targets[n]) {
        assert rest[i] in targets[..n];
        var j :| 0 <= j < n && targets[j] == rest[i];
      }
    }
  }

  ghost function RetrySet(reply: Reply, pending: seq<Target>, more: bool): iset<Target> {
    iset t | t in pending && RetryCode(reply, t, more).Some?
  }

  lemma RetryTargetsSelect(reply: Reply, targets: seq<Target>, keep: iset<Target>, more: bool)
    ensures RetryTargets(reply, Select(targets, keep), more)
         == Select(targets, iset t | t in keep && RetryCode(reply, t, more).Some?)
  {
    if targets != [] {
      var n := |targets| - 1;
      RetryTargetsSelect(reply, targets[..n], keep, more);
      if targets[n] in keep {
        RetryTargetsSnoc(reply, Select(targets[..n], keep), targets[n], more);
      }
      else {
        assert Select(targets, keep) == Select(targets[..n], keep);
      }
    }
  }

  lemma RebuiltPending(reply: Reply, targets: seq<Target>, pending: seq<Target>, more: bool)
    requires pending == Select(targets, iset t | t in pending)
    ensures RetryTargets(reply, pending, more) == Select(targets, RetrySet(reply, pending, more))
    ensures var next := RetryTargets(reply, pending, more); next == Select(targets, iset t | t in next)
  {
    var keep := iset t | t in pending;
    RetryTargetsSelect(reply, targets, keep, more);
    assert (iset t | t in keep && RetryCode(reply, t, more).Some?) == RetrySet(reply, pending, more);
    var next := RetryTargets(reply, pending, more);
    assert (iset t | t in next) == RetrySet(reply, pending, more);
  }

  // ---- One round of the loop ----------------------------------------------------------------

  ghost function Keys(pending: seq<Target>): set<string> {
    set t | t in pending :: Key(t)
  }

  // What the maps say about t agrees with a last retried and a last final result.
  ghost predicate FiledAs(t: Target, retryCode: map<string, ErrorCode>, given: map<string, TargetResult>,
                          code: Option<ErrorCode>, final: Option<TargetResult>) {
    && (if Key(t) in retryCode then Some(retryCode[Key(t)]) else None) == code
    && (if Key(t) in given then Some(given[Key(t)]) else None) == final
  }

  // The bookkeeping of t after the results of a prefix of the reply.
  ghost predicate Tallied(prefix: seq<TargetResult>, t: Target, more: bool,
                          retryCode: map<string, ErrorCode>, given: map<string, TargetResult>, accounted: set<string>) {
    var retried := LastResult(prefix, Key(t), more, true);
    var final := LastResult(prefix, Key(t), more, false);
    && FiledAs(t, retryCode, given,
               if retried.Some? then Some(ResultCode(retried.value)) else None,
               if final.Some? then Some(final.value.(target := t, code := ResultCode(final.value))) else None)
    && (Key(t) in accounted <==> retried.Some? || final.Some?)
  }

  lemma TalliedSkip(results: seq<TargetResult>, i: nat, t: Target, more: bool,
                    retryCode: map<string, ErrorCode>, given: map<string, TargetResult>, accounted: set<string>,
                    retryCode': map<string, ErrorCode>, given': map<string, TargetResult>, accounted': set<string>)
    requires i < |results| && Key(t) != Key(results[i].target)
    requires Tallied(results[..i], t, more, retryCode, given, accounted)
    requires forall k :: k != Key(results[i].target) ==>
               (k in retryCode <==> k in retryCode') && (k in given <==> k in given')
               && (k in accounted <==> k in accounted')
               && (k in retryCode ==> retryCode[k] == retryCode'[k]) && (k in given ==> given[k] == given'[k])
    ensures Tallied(results[..i + 1], t, more, retryCode', given', accounted')
  {
    LastResultSnoc(results, i, Key(t), more, true);
    LastResultSnoc(results, i, Key(t), more, false);
  }

  lemma TalliedTake(results: seq<TargetResult>, i: nat, t: Target, more: bool,
                    retryCode: map<string, ErrorCode>, given: map<string, TargetResult>, accounted: set<string>)
    requires i < |results| && Key(t) == Key(results[i].target)
    requires Tallied(results[..i], t, more, retryCode, given, accounted)
    ensures var r := results[i].(target := t, code := ResultCode(results[i]));
            if Retried(results[i], more)
            then Tallied(results[..i + 1], t, more, retryCode[Key(t) := r.code], given, accounted + {Key(t)})
            else Tallied(results[..i + 1], t, more, retryCode, given[Key(t) := r], accounted + {Key(t)})
  {
    LastResultSnoc(results, i, Key(t), more, true);
    LastResultSnoc(results, i, Key(t), more, false);
  }

  lemma TalliedAll(reply: Reply, t: Target, more: bool,
                   retryCode: map<string, ErrorCode>, given: map<string, TargetResult>, accounted: set<string>)
    requires Tallied(reply.results, t, more, retryCode, given, accounted)
    ensures Key(t) in accounted <==> Accounted(reply.results, Key(t))
    ensures Key(t) in accounted ==> FiledAs(t, retryCode, given, RetryCode(reply, t, more), FinalResult(reply, t, more))
    ensures Key(t) !in accounted ==> FiledAs(t, retryCode, given, None, None)
  {
    LastResultSome(reply.results, Key(t), more, true);
    LastResultSome(reply.results, Key(t), more, false);
  }

  lemma KeyIndex(pending: seq<Target>, s: Target, t: Target)
    requires DistinctKeys(pending) && s in pending && t in pending && Key(s) == Key(t)
    ensures s == t
  {
  }

  // The state of t while the unmentioned targets are being filed: todo holds the keys
  // not looked at yet.
  ghost predicate Filing(reply: Reply, t: Target, more: bool, todo: set<string>,
                         retryCode: map<string, ErrorCode>, given: map<string, TargetResult>, accounted: set<string>) {
    if Key(t) in todo then Tallied(reply.results, t, more, retryCode, given, accounted)
    else FiledAs(t, retryCode, given, RetryCode(reply, t, more), FinalResult(reply, t, more))
  }

  ghost predicate ChangedOnlyAt<V>(m0: map<string, V>, m: map<string, V>, key: string) {
    m == m0 || (key in m && m == m0[key := m[key]])
  }

  lemma FilingFrame(reply: Reply, t: Target, more: bool, todo: set<string>, key: string, accounted: set<string>,
                    retryCode0: map<string, ErrorCode>, given0: map<string, TargetResult>,
                    retryCode: map<string, ErrorCode>, given: map<string, TargetResult>)
    requires Key(t) != key && Filing(reply, t, more, todo, retryCode0, given0, accounted)
    requires ChangedOnlyAt(retryCode0, retryCode, key) && ChangedOnlyAt(given0, given, key)
    ensures Filing(reply, t, more, todo - {key}, retryCode, given, accounted)
  {
  }

  // One provider call: reads the reply and files every pending target as retried or given.
  method AccountRound(pending: seq<Target>, reply: Reply, more: bool)
    returns (retryCode: map<string, ErrorCode>, given: map<string, TargetResult>)
    requires DistinctKeys(pending)
    ensures forall t :: t in pending ==>
              FiledAs(t, retryCode, given, RetryCode(reply, t, more), FinalResult(reply, t, more))
    ensures retryCode.Keys <= Keys(pending) && given.Keys <= Keys(pending)
  {
    var pendingByKey := IndexByKey(pending);
    var accounted;
    retryCode, given, accounted := TallyResults(pending, pendingByKey, reply.results, more);
    var todo := pendingByKey.Keys;
    while todo != {}
      invariant todo <= pendingByKey.Keys
      invariant forall t :: t in pending ==> Filing(reply, t, more, todo, retryCode, given, accounted)
      invariant retryCode.Keys <= Keys(pending) && given.Keys <= Keys(pending)
    {
      var key :| key in todo;
      var target := pendingByKey[key];
      ghost var retryCode0, given0 := retryCode, given;
      retryCode, given := FileUnmentioned(reply, target, more, todo, retryCode, given, accounted);
      forall t | t in pending ensures Filing(reply, t, more, todo - {key}, retryCode, given, accounted) {
        if Key(t) == key {
          KeyIndex(pending, t, target);
        } else {
          FilingFrame(reply, t, more, todo, key, accounted, retryCode0, given0, retryCode, given);
        }
      }
      todo := todo - {key};
    }
  }

  method FileUnmentioned(reply: Reply, target: Target, more: bool, ghost todo: set<string>,
                         retryCode0: map<string, ErrorCode>, given0: map<string, TargetResult>, accounted: set<string>)
    returns (retryCode: map<string, ErrorCode>, given: map<string, TargetResult>)
    requires Key(target) in todo && Filing(reply, target, more, todo, retryCode0, given0, accounted)
    ensures FiledAs(target, retryCode, given, RetryCode(reply, target, more), FinalResult(reply, target, more))
    ensures ChangedOnlyAt(retryCode0, retryCode, Key(target)) && ChangedOnlyAt(given0, given, Key(target))
  {
    TalliedAll(reply, target, more, retryCode0, given0, accounted);
    retryCode, given := retryCode0, given0;
    if Key(target) !in accounted {
      retryCode, given := FileMissing(reply, target, more, retryCode, given);
    }
  }

  // A target the reply does not mention.
  method FileMissing(reply: Reply, target: Target, more: bool,
                     retryCode0: map<string, ErrorCode>, given0: map<string, TargetResult>)
    returns (retryCode: map<string, ErrorCode>, given: map<string, TargetResult>)
    requires !Accounted(reply.results, Key(target)) && FiledAs(target, retryCode0, given0, None, None)
    ensures FiledAs(target, retryCode, given, RetryCode(reply, target, more), FinalResult(reply, target, more))
    ensures ChangedOnlyAt(retryCode0, retryCode, Key(target)) && ChangedOnlyAt(given0, given, Key(target))
  {
    MentionedOrNot(reply, target, more);
    retryCode, given := retryCode0, given0;
    var key := Key(target);
    var missingCode := Transient;
    if reply.err.Some? {
      missingCode := SendErrorCode(reply.err);
    }
    if Retryable(missingCode) && more {
      retryCode := retryCode[key := missingCode];
    } else {
      given := given[key := TargetResult(target, "", missingCode, Some(MissingError(reply)))];
    }
  }

  method IndexByKey(pending: seq<Target>) returns (byKey: map<string, Target>)
    requires DistinctKeys(pending)
    ensures byKey.Keys == Keys(pending)
    ensures forall k :: k in byKey ==> byKey[k] in pending && Key(byKey[k]) == k
  {
    byKey := map[];
    for j := 0 to |pending|
      invariant byKey.Keys == Keys(pending[..j])
      invariant forall k :: k in byKey ==> byKey[k] in pending && Key(byKey[k]) == k
    {
      byKey := byKey[Key(pending[j]) := pending[j]];
      assert pending[..j + 1] == pending[..j] + [pending[j]];
    }
    assert pending[..|pending|] == pending;
  }

  method TallyResults(pending: seq<Target>, pendingByKey: map<string, Target>, results: seq<TargetResult>, more: bool)
    returns (retryCode: map<string, ErrorCode>, given: map<string, TargetResult>, accounted: set<string>)
    requires DistinctKeys(pending) && pendingByKey.Keys == Keys(pending)
    requires forall k :: k in pendingByKey ==> pendingByKey[k] in pending && Key(pendingByKey[k]) == k
    ensures forall t :: t in pending ==> Tallied(results, t, more, retryCode, given, accounted)
    ensures retryCode.Keys <= Keys(pending) && given.Keys <= Keys(pending)
  {
    retryCode, given, accounted := map[], map[], {};
    for i := 0 to |results|
      invariant forall t :: t in pending ==> Tallied(results[..i], t, more, retryCode, given, accounted)
      invariant retryCode.Keys <= Keys(pending) && given.Keys <= Keys(pending)
    {
      var r := results[i];
      var key := Key(r.target);
      ghost var retryCode0, given0, accounted0 := retryCode, given, accounted;
      if key in pendingByKey {
        var target := pendingByKey[key];
        accounted := accounted + {key};
        r := r.(target := target);
        if r.err.Some? && r.code == NoError {
          r := r.(code := Unknown);
        }
        if Retryable(r.code) && more {
          retryCode := retryCode[key := r.code];
        } else {
          given := given[key := r];
        }
        TalliedTake(results, i, target, more, retryCode0, given0, accounted0);
      }
      forall t | t in pending ensures Tallied(results[..i + 1], t, more, retryCode, given, accounted) {
        if Key(t) == key {
          KeyIndex(pending, t, pendingByKey[key]);
        } else {
          TalliedSkip(results, i, t, more, retryCode0, given0, accounted0, retryCode, given, accounted);
        }
      }
    }
    assert results[..|results|] == results;
  }

  lemma MentionedOrNot(reply: Reply, t: Target, more: bool)
    ensures Accounted(reply.results, Key(t)) <==>
            LastResult(reply.results, Key(t), more, true).Some? || LastResult(reply.results, Key(t), more, false).Some?
  {
    LastResultSome(reply.results, Key(t), more, true);
    LastResultSome(reply.results, Key(t), more, false);
  }

  // ---- The batch ---------------------------------------------------------------------------

  lemma FinalOfSnoc(done: seq<Round>, r: Round, t: Target)
    ensures FinalOf(done + [r], t) == if FinalOf([r], t).Some? then FinalOf([r], t) else FinalOf(done, t)
  {
  }

  lemma {:induction false} FinalOfConcat(a: seq<Round>, b: seq<Round>, t: Target)
    ensures FinalOf(a + b, t) == if FinalOf(b, t).Some? then FinalOf(b, t) else FinalOf(a, t)
  {
    if b == [] {
      assert a + b == a;
    } else {
      var n := |b| - 1;
      assert b == b[..n] + [b[n]];
      assert a + b == (a + b[..n]) + [b[n]];
      FinalOfConcat(a, b[..n], t);
      FinalOfSnoc(a + b[..n], b[n], t);
      FinalOfSnoc(b[..n], b[n], t);
    }
  }

  // Every pending target is either given a result or parked for the next attempt.
  lemma GivenOrRetried(reply: Reply, t: Target, more: bool)
    ensures RetryCode(reply, t, more).Some? || FinalResult(reply, t, more).Some?
  {
    MentionedOrNot(reply, t, more);
  }

  function FirstRound(p: Provider, max: nat, attempt: nat, pending: seq<Target>): Round {
    var reply := p.respond(attempt, pending);
    var more := attempt < max;
    if RetryTargets(reply, pending, more) == [] then Round(attempt, pending, reply, more, None, None)
    else
      var delay := RoundDelay(p, attempt, reply, pending, more);
      Round(attempt, pending, reply, more, Some(delay), p.wait(attempt, delay))
  }

  // What is pending after a round: nothing when its wait was cut short.
  function NextPending(r: Round): seq<Target> {
    if r.cut.Some? then [] else RetryTargets(r.reply, r.pending, r.more)
  }

  lemma RoundsUnfold(p: Provider, max: nat, attempt: nat, pending: seq<Target>)
    requires 1 <= attempt <= max && pending != []
    ensures var r := FirstRound(p, max, attempt, pending);
            Rounds(p, max, attempt, pending) == [r] + Rounds(p, max, attempt + 1, NextPending(r))
  {
  }

  lemma RoundsEnd(p: Provider, max: nat, attempt: nat, pending: seq<Target>)
    requires attempt >= 1
    ensures attempt > max || pending == [] ==> Rounds(p, max, attempt, pending) == []
  {
  }

  lemma FirstRoundFields(p: Provider, max: nat, attempt: nat, pending: seq<Target>)
    ensures var r := FirstRound(p, max, attempt, pending);
            r.attempt == attempt && r.pending == pending && (r.more <==> attempt < max)
            && r.reply == p.respond(attempt, pending)
  {
  }

  lemma FinalOfOne(r: Round, t: Target)
    ensures t !in r.pending ==> FinalOf([r], t).None?
    ensures t in r.pending ==>
              var code := RetryCode(r.reply, t, r.more);
              FinalOf([r], t) == if r.cut.Some? && code.Some? then Some(TargetResult(t, "", code.value, r.cut))
                                 else FinalResult(r.reply, t, r.more)
  {
  }

  lemma RetryNeedsMore(reply: Reply, t: Target, more: bool)
    requires RetryCode(reply, t, more).Some?
    ensures more
  {
    LastResultSome(reply.results, Key(t), more, true);
  }

  // Rounds that hand their retries on, until nothing is left.
  ghost predicate Linked(rounds: seq<Round>) {
    && (forall i :: 0 <= i < |rounds| - 1 ==> rounds[i + 1].pending == NextPending(rounds[i]))
    && (rounds != [] ==> NextPending(rounds[|rounds| - 1]) == [])
  }

  // Each round is what the provider answered to its pending targets, at its attempt.
  ghost predicate Answered(p: Provider, max: nat, attempt: nat, rounds: seq<Round>) {
    forall i :: 0 <= i < |rounds| ==> rounds[i] == FirstRound(p, max, attempt + i, rounds[i].pending)
  }

  lemma {:induction false} RoundsLinked(p: Provider, max: nat, attempt: nat, pending: seq<Target>, rounds: seq<Round>)
    requires 1 <= attempt <= max && pending != []
    requires rounds == Rounds(p, max, attempt, pending)
    ensures 1 <= |rounds| <= max + 1 - attempt && rounds[0].pending == pending
    ensures Linked(rounds) && Answered(p, max, attempt, rounds)
    decreases max - attempt
  {
    hide Rounds, FirstRound, NextPending;
    var r := FirstRound(p, max, attempt, pending);
    RoundsUnfold(p, max, attempt, pending);
    FirstRoundFields(p, max, attempt, pending);
    var next := NextPending(r);
    var rest := Rounds(p, max, attempt + 1, next);
    RoundsEnd(p, max, attempt + 1, next);
    if next == [] {
      assert rounds == [r];
    } else {
      NextNeedsMore(r);
      RoundsLinked(p, max, attempt + 1, next, rest);
      RoundsTail(p, max, attempt, r, rest, rounds);
    }
  }

  lemma NextNeedsMore(r: Round)
    requires NextPending(r) != []
    ensures r.more
  {
    assert NextPending(r)[0] in NextPending(r);
    RetryNeedsMore(r.reply, NextPending(r)[0], r.more);
  }

  lemma RoundsTail(p: Provider, max: nat, attempt: nat, r: Round, rest: seq<Round>, all: seq<Round>)
    requires attempt <= max && all == [r] + rest && rest != [] && Linked(rest) && rest[0].pending == NextPending(r)
    requires r == FirstRound(p, max, attempt, r.pending) && Answered(p, max, attempt + 1, rest)
    ensures Linked(all) && Answered(p, max, attempt, all)
  {
    forall i | 0 <= i < |all| ensures all[i] == FirstRound(p, max, attempt + i, all[i].pending) {
      if i > 0 {
        assert all[i] == rest[i - 1];
      }
    }
  }

  lemma {:induction false} LinkedFinal(rounds: seq<Round>, t: Target)
    requires Linked(rounds) && rounds != [] && t in rounds[0].pending
    ensures FinalOf(rounds, t).Some?
    decreases |rounds|
  {
    var r := rounds[0];
    assert rounds == [r] + rounds[1..];
    FinalOfConcat([r], rounds[1..], t);
    FinalOfOne(r, t);
    GivenOrRetried(r.reply, t, r.more);
    if RetryCode(r.reply, t, r.more).Some? && r.cut.None? {
      assert t in NextPending(r);
      LinkedFinal(rounds[1..], t);
    }
  }

  lemma EveryTargetFinal(p: Provider, max: nat, targets: seq<Target>, t: Target)
    requires max >= 1 && t in targets
    ensures FinalOf(Rounds(p, max, 1, targets), t).Some?
  {
    RoundsLinked(p, max, 1, targets, Rounds(p, max, 1, targets));
    LinkedFinal(Rounds(p, max, 1, targets), t);
  }

  // Wait, retry and record: what finals says agrees with the rounds done so far.
  ghost predicate Recorded(done: seq<Round>, t: Target, finals: map<string, TargetResult>) {
    FinalOf(done, t) == if Key(t) in finals then Some(finals[Key(t)]) else None
  }

  lemma RecordRound(done: seq<Round>, r: Round, targets: seq<Target>, t: Target, finals: map<string, TargetResult>,
                    given: map<string, TargetResult>, parked: map<string, TargetResult>)
    requires DistinctKeys(targets) && t in targets && Recorded(done, t, finals)
    requires forall u :: u in r.pending ==> u in targets
    requires given.Keys <= Keys(r.pending) && parked.Keys <= Keys(r.pending)
    requires t in r.pending ==>
               FinalResult(r.reply, t, r.more) == (if Key(t) in given then Some(given[Key(t)]) else None)
               && (if Key(t) in parked then r.cut.Some? && RetryCode(r.reply, t, r.more).Some?
                                            && parked[Key(t)] ==
                                               TargetResult(t, "", RetryCode(r.reply, t, r.more).value, r.cut)
                   else r.cut.None? || RetryCode(r.reply, t, r.more).None?)
    ensures Recorded(done + [r], t, finals + given + parked)
  {
    FinalOfSnoc(done, r, t);
    FinalOfOne(r, t);
    if Key(t) in Keys(r.pending) {
      var u :| u in r.pending && Key(u) == Key(t);
      KeyIndex(targets, u, t);
    }
  }

  // The batch order decides the order of the next attempt.
  method Rebuild(targets: seq<Target>, ghost pending: seq<Target>, ghost reply: Reply, ghost more: bool,
                 retryCode: map<string, ErrorCode>) returns (next: seq<Target>)
    requires DistinctKeys(targets) && forall t :: t in pending ==> t in targets
    requires forall t :: t in pending ==> (Key(t) in retryCode <==> RetryCode(reply, t, more).Some?)
    requires retryCode.Keys <= Keys(pending)
    ensures next == Select(targets, RetrySet(reply, pending, more))
  {
    next := [];
    for i := 0 to |targets|
      invariant next == Select(targets[..i], RetrySet(reply, pending, more))
    {
      assert targets[..i + 1][..i] == targets[..i];
      if Key(targets[i]) in retryCode {
        ghost var u :| u in pending && Key(u) == Key(targets[i]);
        KeyIndex(targets, u, targets[i]);
        next := next + [targets[i]];
      }
    }
    assert targets[..|targets|] == targets;
  }

  // One rate-limited target makes the whole round wait for the quota.
  method WorstCode(ghost pending: seq<Target>, ghost reply: Reply, ghost more: bool, retryCode: map<string, ErrorCode>)
    returns (code: ErrorCode)
    requires forall t :: t in pending ==>
               (if Key(t) in retryCode then Some(retryCode[Key(t)]) else None) == RetryCode(reply, t, more)
    requires retryCode.Keys <= Keys(pending)
    ensures code == if AnyRateLimited(reply, pending, more) then RateLimited else Transient
  {
    code := Transient;
    var todo := retryCode.Keys;
    while todo != {}
      invariant todo <= retryCode.Keys
      invariant code == Transient
      invariant forall k :: k in retryCode && k !in todo ==> retryCode[k] != RateLimited
    {
      var key :| key in todo;
      if retryCode[key] == RateLimited {
        ghost var u :| u in pending && Key(u) == key;
        assert RetryCode(reply, u, more) == Some(RateLimited);
        return RateLimited;
      }
      todo := todo - {key};
    }
    forall t | t in pending ensures RetryCode(reply, t, more) != Some(RateLimited) {
      if Key(t) in retryCode {
        assert retryCode[Key(t)] != RateLimited;
      }
    }
  }

  // The wait was cancelled: what was to be retried keeps its code and gets that error.
  method Park(retry: seq<Target>, retryCode: map<string, ErrorCode>, cut: Option<Error>)
    returns (parked: map<string, TargetResult>)
    requires DistinctKeys(retry) && forall t :: t in retry ==> Key(t) in retryCode
    ensures parked.Keys == Keys(retry)
    ensures forall t :: t in retry ==> parked[Key(t)] == TargetResult(t, "", retryCode[Key(t)], cut)
  {
    parked := map[];
    for i := 0 to |retry|
      invariant parked.Keys == Keys(retry[..i])
      invariant forall j :: 0 <= j < i ==> Key(retry[j]) in parked
      invariant forall j :: 0 <= j < i ==>
                  parked[Key(retry[j])] == TargetResult(retry[j], "", retryCode[Key(retry[j])], cut)
    {
      var t := retry[i];
      parked := parked[Key(t) := TargetResult(t, "", retryCode[Key(t)], cut)];
      assert retry[..i + 1] == retry[..i] + [t];
    }
    assert retry[..|retry|] == retry;
  }

  lemma CountSnoc(results: seq<TargetResult>, r: TargetResult)
    ensures SuccessCount([]) == UnresolvedCount([]) == 0
    ensures SuccessCount(results + [r]) == SuccessCount(results) + (if r.Succeeded() then 1 else 0)
    ensures UnresolvedCount(results + [r]) == UnresolvedCount(results) + (if UnresolvedCode(r.code) then 1 else 0)
  {
  }

  method Summarize(targets: seq<Target>, finals: map<string, TargetResult>, lastErr: Option<Error>,
                   ghost rounds: seq<Round>)
    returns (result: BatchResult, err: Option<BatchError>)
    requires forall t :: t in targets ==> Recorded(rounds, t, finals) && FinalOf(rounds, t).Some?
    ensures |result.results| == |targets|
    ensures forall i :: 0 <= i < |targets| ==> Some(result.results[i]) == FinalOf(rounds, targets[i])
    ensures result.successCount == SuccessCount(result.results)
    ensures result.failureCount == |targets| - result.successCount
    ensures err == if UnresolvedCount(result.results) == 0 then None
                   else Some(BatchError(UnresolvedCount(result.results), lastErr))
  {
    hide FinalOf, Key, UnresolvedCount, SuccessCount;
    var results: seq<TargetResult> := [];
    var succeeded, failed, unresolved := 0, 0, 0;
    CountSnoc([], TargetResult(Target("", "", Fid, ""), "", NoError, None));
    for i := 0 to |targets|
      invariant |results| == i
      invariant forall j :: 0 <= j < i ==> Some(results[j]) == FinalOf(rounds, targets[j])
      invariant succeeded == SuccessCount(results) && failed == i - succeeded
      invariant unresolved == UnresolvedCount(results)
    {
      var target := targets[i];
      assert Recorded(rounds, target, finals);
      var r := if Key(target) in finals then finals[Key(target)] else TargetResult(target, "", Transient, lastErr);
      ghost var before := results;
      results := results + [r];
      CountSnoc(before, r);
      if r.err.None? && r.code == NoError {
        succeeded := succeeded + 1;
      } else {
        failed := failed + 1;
        if r.code == Transient || r.code == RateLimited || r.code == Unknown {
          unresolved := unresolved + 1;
        }
      }
    }
    result := BatchResult(results, succeeded, failed);
    err := if unresolved > 0 then Some(BatchError(unresolved, lastErr)) else None;
  }

  // One attempt: the provider call, the bookkeeping and the wait. next is empty when
  // nothing is left to retry or the wait was cancelled.
  method Attempt(p: Provider, max: nat, targets: seq<Target>, attempt: nat, pending: seq<Target>,
                 finals0: map<string, TargetResult>, ghost done: seq<Round>)
    returns (finals: map<string, TargetResult>, next: seq<Target>, lastErr: Option<Error>)
    requires DistinctKeys(targets) && pending == Select(targets, iset t | t in pending)
    requires 1 <= attempt <= max && pending != []
    requires forall t :: t in targets ==> Recorded(done, t, finals0)
    ensures Rounds(p, max, attempt, pending)
              == [FirstRound(p, max, attempt, pending)] + Rounds(p, max, attempt + 1, next)
    ensures next == Select(targets, iset t | t in next)
    ensures next == NextPending(FirstRound(p, max, attempt, pending))
    ensures lastErr == LastCause(done + [FirstRound(p, max, attempt, pending)])
    ensures forall t :: t in targets ==> Recorded(done + [FirstRound(p, max, attempt, pending)], t, finals)
  {
    hide Rounds, FinalOf, Select, FinalResult, RetryCode, RetryTargets, LastResult, Key, Keys, RetryBackoff, RetrySet,
         Accounted;
    SelectMembers(targets, iset t | t in pending);
    SelectDistinct(targets, iset t | t in pending);
    var reply := p.respond(attempt, pending);
    lastErr := reply.err;
    var more := attempt < max;
    var retryCode, given := AccountRound(pending, reply, more);
    ghost var round := FirstRound(p, max, attempt, pending);
    finals := finals0 + given;
    next := Rebuild(targets, pending, reply, more, retryCode);
    RebuiltPending(reply, targets, pending, more);
    RetryTargetsDistinct(reply, pending, more);
    var parked: map<string, TargetResult> := map[];
    if next != [] {
      var code := WorstCode(pending, reply, more, retryCode);
      var delay := p.jitter(attempt, RetryBackoff(code, attempt));
      var cut := p.wait(attempt, delay);
      if cut.Some? {
        lastErr := cut;
        parked := Park(next, retryCode, cut);
        next := [];
      }
    }
    FilesRound(round, retryCode, given, parked);
    forall t | t in targets ensures Recorded(done + [round], t, finals + parked) {
      RecordRound(done, round, targets, t, finals0, given, parked);
    }
    finals := finals + parked;
    RoundsUnfold(p, max, attempt, pending);
    SelectNone(targets);
  }

  lemma FilesRound(r: Round, retryCode: map<string, ErrorCode>, given: map<string, TargetResult>,
                   parked: map<string, TargetResult>)
    requires forall t :: t in r.pending ==>
               FiledAs(t, retryCode, given, RetryCode(r.reply, t, r.more), FinalResult(r.reply, t, r.more))
    requires DistinctKeys(r.pending)
    requires var retry := RetryTargets(r.reply, r.pending, r.more);
             if r.cut.None? then parked == map[]
             else parked.Keys == Keys(retry)
                  && forall t :: t in retry ==>
                       Key(t) in retryCode && parked[Key(t)] == TargetResult(t, "", retryCode[Key(t)], r.cut)
    ensures parked.Keys <= Keys(r.pending)
    ensures forall t :: t in r.pending ==>
               FinalResult(r.reply, t, r.more) == (if Key(t) in given then Some(given[Key(t)]) else None)
               && (if Key(t) in parked then r.cut.Some? && RetryCode(r.reply, t, r.more).Some?
                                            && parked[Key(t)] ==
                                               TargetResult(t, "", RetryCode(r.reply, t, r.more).value, r.cut)
                   else r.cut.None? || RetryCode(r.reply, t, r.more).None?)
  {
  }

  // Sends a batch and resends what is still open, at most max times.
  method SendBatch(p: Provider, max: nat, targets: seq<Target>) returns (result: BatchResult, err: Option<BatchError>)
    requires max >= 1 && DistinctKeys(targets)
    ensures |result.results| == |targets|
    ensures forall i :: 0 <= i < |targets| ==>
              Some(result.results[i]) == FinalOf(Rounds(p, max, 1, targets), targets[i])
    ensures result.successCount == SuccessCount(result.results)
    ensures result.failureCount == |targets| - result.successCount
    ensures err == if UnresolvedCount(result.results) == 0 then None
                   else Some(BatchError(UnresolvedCount(result.results), LastCause(Rounds(p, max, 1, targets))))
  {
    hide Rounds, FirstRound, NextPending, FinalOf, Select;
    var pending := targets;
    var finals: map<string, TargetResult> := map[];
    var lastErr: Option<Error> := None;
    var attempt := 1;
    ghost var all := Rounds(p, max, 1, targets);
    ghost var done: seq<Round> := [];
    SelectAll(targets, iset t | t in targets);
    NothingRecorded();
    while attempt <= max && pending != []
      invariant 1 <= attempt <= max + 1
      invariant all == done + Rounds(p, max, attempt, pending)
      invariant pending == Select(targets, iset t | t in pending)
      invariant forall t :: t in targets ==> Recorded(done, t, finals)
      invariant lastErr == LastCause(done)
    {
      ghost var round := FirstRound(p, max, attempt, pending);
      finals, pending, lastErr := Attempt(p, max, targets, attempt, pending, finals, done);
      done := done + [round];
      attempt := attempt + 1;
    }
    RoundsEnd(p, max, attempt, pending);
    assert all == done;
    forall t | t in targets ensures FinalOf(all, t).Some? {
      EveryTargetFinal(p, max, targets, t);
    }
    result, err := Summarize(targets, finals, lastErr, all);
  }

  lemma NothingRecorded()
    ensures forall t :: Recorded([], t, map[])
  {
  }

  lemma SelectNone(targets: seq<Target>)
    ensures Select(targets, iset t: Target | t in []) == []
  {
    if targets != [] {
      SelectNone(targets[..|targets| - 1]);
    }
  }

  // The counts of a summary, and the cause it gives.
  lemma {:induction false} SuccessesCounted(results: seq<TargetResult>)
    ensures SuccessCount(results) == |set i | 0 <= i < |results| && results[i].err.None? && results[i].code == NoError|
  {
    if results != [] {
      var n := |results| - 1;
      SuccessesCounted(results[..n]);
      var r := results[n];
      var good := set i | 0 <= i < n && results[..n][i].err.None? && results[..n][i].code == NoError;
      assert (set i | 0 <= i < |results| && results[i].err.None? && results[i].code == NoError)
             == good + (if r.err.None? && r.code == NoError then {n} else {});
    }
  }

  lemma {:induction false} UnresolvedCounted(results: seq<TargetResult>)
    ensures UnresolvedCount(results)
            == |set i | 0 <= i < |results| && (results[i].code == Transient || results[i].code == RateLimited
                                               || results[i].code == Unknown)|
  {
    if results != [] {
      var n := |results| - 1;
      UnresolvedCounted(results[..n]);
      var r := results[n];
      var open := set i | 0 <= i < n && (results[..n][i].code == Transient || results[..n][i].code == RateLimited
                                         || results[..n][i].code == Unknown);
      assert (set i | 0 <= i < |results| && (results[i].code == Transient || results[i].code == RateLimited
                                             || results[i].code == Unknown))
             == open + (if r.code == Transient || r.code == RateLimited || r.code == Unknown then {n} else {});
    }
  }

  lemma CauseIsLast(rounds: seq<Round>)
    requires rounds != []
    ensures var last := rounds[|rounds| - 1]; LastCause(rounds) == if last.cut.Some? then last.cut else last.reply.err
  {
  }

  // A result names the target it was made for, and carries no error under the empty code.
  lemma {:induction false} FinalOfShape(rounds: seq<Round>, t: Target)
    ensures var r := FinalOf(rounds, t);
            r.Some? ==> r.value.target == t && (r.value.code == NoError ==> r.value.err.None?)
  {
    if rounds != [] {
      FinalOfShape(rounds[..|rounds| - 1], t);
      var last := rounds[|rounds| - 1];
      LastResultSome(last.reply.results, Key(t), last.more, true);
    }
  }
}
