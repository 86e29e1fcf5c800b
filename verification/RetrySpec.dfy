/** What the retry loop means for one target: how often it is sent, which answers make it
    be sent again, and which answer it ends with. */
module RetrySpec {
  import opened Push
  import opened Dispatcher

  // ---- The sender's contract --------------------------------------------------------

  // A response names each address at most once.
  ghost predicate OneResultPerKey(reply: Reply) {
    forall i, j :: 0 <= i < j < |reply.results| ==> Key(reply.results[i].target) != Key(reply.results[j].target)
  }

  ghost predicate SenderContract(p: Provider) {
    forall attempt: nat, pending: seq<Target> :: DistinctKeys(pending) ==> OneResultPerKey(p.respond(attempt, pending))
  }

  // A success and a retryable failure for the same address in one response put an
  // already delivered target back into the next attempt, and nothing else does.
  lemma ResentExactlyOnConflict(reply: Reply, t: Target, more: bool)
    ensures FinalResult(reply, t, more).Some? && RetryCode(reply, t, more).Some?
       <==> exists i, j :: 0 <= i < |reply.results| && 0 <= j < |reply.results|
                           && Key(reply.results[i].target) == Key(reply.results[j].target) == Key(t)
                           && Retried(reply.results[i], more) && !Retried(reply.results[j], more)
  {
    hide Key;
    LastResultSome(reply.results, Key(t), more, true);
    LastResultSome(reply.results, Key(t), more, false);
    MentionedOrNot(reply, t, more);
  }

  lemma ConflictResendsSuccess(t: Target) returns (reply: Reply)
    requires t.Valid()
    ensures FinalResult(reply, t, true).Some? && FinalResult(reply, t, true).value.Succeeded()
    ensures RetryTargets(reply, [t], true) == [t]
    ensures !OneResultPerKey(reply)
  {
    var success := TargetResult(t, "m", NoError, None);
    var failure := TargetResult(t, "", Transient, Some(Plain("unavailable")));
    reply := Reply([success, failure], None);
    assert reply.results[..1] == [success];
    assert LastResult(reply.results, Key(t), true, true) == Some(failure);
    assert LastResult(reply.results[..1], Key(t), true, false) == Some(success);
    assert Key(reply.results[0].target) == Key(reply.results[1].target);
    assert [t][1..] == [];
  }

  // ---- The answer a target gets in one round --------------------------------------------

  ghost function Outcome(reply: Reply, t: Target): TargetResult {
    if Accounted(reply.results, Key(t)) then
      var i :| 0 <= i < |reply.results| && Key(reply.results[i].target) == Key(t);
      reply.results[i].(target := t, code := ResultCode(reply.results[i]))
    else TargetResult(t, "", MissingCode(reply), Some(MissingError(reply)))
  }

  ghost predicate SentAgain(r: Round, t: Target) {
    r.more && Retryable(Outcome(r.reply, t).code)
  }

  lemma RoundByOutcome(r: Round, t: Target)
    requires OneResultPerKey(r.reply)
    ensures RetryCode(r.reply, t, r.more) == if SentAgain(r, t) then Some(Outcome(r.reply, t).code) else None
    ensures FinalResult(r.reply, t, r.more) == if SentAgain(r, t) then None else Some(Outcome(r.reply, t))
  {
    hide Key;
    LastResultSome(r.reply.results, Key(t), r.more, true);
    LastResultSome(r.reply.results, Key(t), r.more, false);
    MentionedOrNot(r.reply, t, r.more);
  }

  // ---- The story of one target --------------------------------------------------------------

  // What a target ends with when round r is the last one that carries it.
  ghost function EndsWith(r: Round, t: Target): TargetResult {
    if SentAgain(r, t) then TargetResult(t, "", Outcome(r.reply, t).code, r.cut) else Outcome(r.reply, t)
  }

  // t is sent in rounds 0..k-1 and in no other; every answer before the last one asks for
  // another attempt; it has no result before round k and keeps one result from there on.
  ghost predicate Story(rounds: seq<Round>, t: Target, k: nat) {
    && 1 <= k <= |rounds|
    && (forall i :: 0 <= i < |rounds| ==> (t in rounds[i].pending <==> i < k))
    && (forall i :: 0 <= i < k - 1 ==> SentAgain(rounds[i], t) && rounds[i].cut.None?)
    && (SentAgain(rounds[k - 1], t) ==> rounds[k - 1].cut.Some?)
    && (forall j :: 0 <= j <= |rounds| ==>
          FinalOf(rounds[..j], t) == if j < k then None else Some(EndsWith(rounds[k - 1], t)))
  }

  ghost predicate WellAnswered(rounds: seq<Round>) {
    Linked(rounds) && forall i :: 0 <= i < |rounds| ==> OneResultPerKey(rounds[i].reply)
  }

  lemma {:induction false} Follow(rounds: seq<Round>, t: Target, j: nat) returns (k: nat)
    requires WellAnswered(rounds) && j < |rounds| && t in rounds[j].pending
    requires forall i :: 0 <= i < j ==> t in rounds[i].pending && SentAgain(rounds[i], t) && rounds[i].cut.None?
    ensures j < k <= |rounds|
    ensures forall i :: 0 <= i < k ==> t in rounds[i].pending
    ensures forall i :: 0 <= i < k - 1 ==> SentAgain(rounds[i], t) && rounds[i].cut.None?
    ensures SentAgain(rounds[k - 1], t) ==> rounds[k - 1].cut.Some?
    decreases |rounds| - j
  {
    hide RetryCode, RetryTargets, FinalResult, Outcome, Key;
    RoundByOutcome(rounds[j], t);
    if SentAgain(rounds[j], t) && rounds[j].cut.None? {
      assert t in NextPending(rounds[j]);
      k := Follow(rounds, t, j + 1);
    } else {
      k := j + 1;
    }
  }

  lemma {:induction false} GoneAfter(rounds: seq<Round>, t: Target, k: nat, i: nat)
    requires WellAnswered(rounds) && 1 <= k <= i < |rounds|
    requires SentAgain(rounds[k - 1], t) ==> rounds[k - 1].cut.Some?
    ensures t !in rounds[i].pending
  {
    hide RetryCode, RetryTargets, FinalResult, Outcome, Key;
    RoundByOutcome(rounds[i - 1], t);
    if i > k {
      GoneAfter(rounds, t, k, i - 1);
    }
  }

  lemma {:induction false} ResultSoFar(rounds: seq<Round>, t: Target, k: nat, j: nat)
    requires WellAnswered(rounds) && 1 <= k <= |rounds| && j <= |rounds|
    requires forall i :: 0 <= i < |rounds| ==> (t in rounds[i].pending <==> i < k)
    requires forall i :: 0 <= i < k - 1 ==> SentAgain(rounds[i], t) && rounds[i].cut.None?
    requires SentAgain(rounds[k - 1], t) ==> rounds[k - 1].cut.Some?
    ensures FinalOf(rounds[..j], t) == if j < k then None else Some(EndsWith(rounds[k - 1], t))
    decreases j
  {
    hide SentAgain, Outcome, FinalOf, RetryCode, FinalResult, RetryTargets, Key, OneResultPerKey;
    if j == 0 {
      NothingYet(t);
      assert rounds[..0] == [];
    } else {
      ResultSoFar(rounds, t, k, j - 1);
      assert rounds[..j] == rounds[..j - 1] + [rounds[j - 1]];
      FinalOfSnoc(rounds[..j - 1], rounds[j - 1], t);
      FinalOfOne(rounds[j - 1], t);
      RoundByOutcome(rounds[j - 1], t);
    }
  }

  lemma NothingYet(t: Target)
    ensures FinalOf([], t) == None
  {
  }

  lemma WellAnsweredRounds(p: Provider, max: nat, attempt: nat, rounds: seq<Round>, n: nat)
    requires SenderContract(p) && Linked(rounds) && Answered(p, max, attempt, rounds)
    requires n < |rounds| && DistinctKeys(rounds[0].pending)
    ensures forall i :: 0 <= i <= n ==> DistinctKeys(rounds[i].pending) && OneResultPerKey(rounds[i].reply)
  {
    hide Key, RetryTargets;
    if n > 0 {
      WellAnsweredRounds(p, max, attempt, rounds, n - 1);
      RetryTargetsDistinct(rounds[n - 1].reply, rounds[n - 1].pending, rounds[n - 1].more);
    }
    FirstRoundFields(p, max, attempt + n, rounds[n].pending);
  }

  // The whole run of a batch, seen by one of its targets.
  lemma TargetStory(p: Provider, max: nat, targets: seq<Target>, t: Target) returns (k: nat)
    requires max >= 1 && DistinctKeys(targets) && SenderContract(p) && t in targets
    ensures 1 <= k <= max && |Rounds(p, max, 1, targets)| <= max
    ensures Story(Rounds(p, max, 1, targets), t, k)
    // A retryable answer ends the story only at the last attempt or in a cancelled wait.
    ensures var last := Rounds(p, max, 1, targets)[k - 1];
            Retryable(Outcome(last.reply, t).code) ==> k == max || last.cut.Some?
  {
    hide Rounds, FirstRound, NextPending, FinalOf, Outcome;
    var rounds := Rounds(p, max, 1, targets);
    RoundsLinked(p, max, 1, targets, rounds);
    WellAnsweredRounds(p, max, 1, rounds, |rounds| - 1);
    k := Follow(rounds, t, 0);
    forall i | k <= i < |rounds| ensures t !in rounds[i].pending {
      GoneAfter(rounds, t, k, i);
    }
    forall j | 0 <= j <= |rounds|
      ensures FinalOf(rounds[..j], t) == if j < k then None else Some(EndsWith(rounds[k - 1], t))
    {
      ResultSoFar(rounds, t, k, j);
    }
    FirstRoundFields(p, max, 1 + (k - 1), rounds[k - 1].pending);
  }

  // At every loop head the batch splits into targets with a result and pending targets.
  lemma FinalAndPendingPartition(p: Provider, max: nat, targets: seq<Target>, j: nat, t: Target)
    requires max >= 1 && DistinctKeys(targets) && SenderContract(p) && t in targets
    requires j < |Rounds(p, max, 1, targets)|
    ensures FinalOf(Rounds(p, max, 1, targets)[..j], t).Some? <==> t !in Rounds(p, max, 1, targets)[j].pending
  {
    hide Rounds, FinalOf;
    var k := TargetStory(p, max, targets, t);
  }

  // What the sender said about t in the last round that carried it.
  ghost function LastOutcome(rounds: seq<Round>, t: Target): Option<TargetResult> {
    if rounds == [] then None
    else
      var last := rounds[|rounds| - 1];
      if t in last.pending then Some(Outcome(last.reply, t)) else LastOutcome(rounds[..|rounds| - 1], t)
  }

  lemma {:induction false} LastOutcomeOf(rounds: seq<Round>, t: Target, k: nat)
    requires 1 <= k <= |rounds| && forall i :: 0 <= i < |rounds| ==> (t in rounds[i].pending <==> i < k)
    ensures LastOutcome(rounds, t) == Some(Outcome(rounds[k - 1].reply, t))
    decreases |rounds|
  {
    if k < |rounds| { LastOutcomeOf(rounds[..|rounds| - 1], t, k); }
  }

  // A target ends with the code the sender gave it last.
  lemma LastOutcomeDecides(p: Provider, max: nat, targets: seq<Target>, t: Target)
    requires max >= 1 && DistinctKeys(targets) && SenderContract(p) && t in targets
    ensures var rounds := Rounds(p, max, 1, targets);
            && FinalOf(rounds, t).Some? && LastOutcome(rounds, t).Some?
            && FinalOf(rounds, t).value.code == LastOutcome(rounds, t).value.code
  {
    hide Rounds, FinalOf, Outcome, LastOutcome;
    var rounds := Rounds(p, max, 1, targets);
    var k := TargetStory(p, max, targets, t);
    LastOutcomeOf(rounds, t, k);
    assert rounds[..|rounds|] == rounds;
  }

  // ---- In terms of the codes ----------------------------------------------------------------

  // The provider's answer asks for another attempt: a transient or rate-limited result, or no
  // result and either no error or one of these two codes.
  ghost predicate AsksAgain(reply: Reply, t: Target) {
    if exists i :: 0 <= i < |reply.results| && Key(reply.results[i].target) == Key(t) then
      exists i :: 0 <= i < |reply.results| && Key(reply.results[i].target) == Key(t)
                  && (reply.results[i].code == Transient || reply.results[i].code == RateLimited)
    else
      reply.err.None?
      || (reply.err.value.Classified? && (reply.err.value.code == Transient || reply.err.value.code == RateLimited))
  }

  lemma AsksByCode(reply: Reply, t: Target)
    requires OneResultPerKey(reply)
    ensures AsksAgain(reply, t) <==> Retryable(Outcome(reply, t).code)
  {
    hide Key;
  }

  // A target is sent again in the next attempt exactly when its answer asks for it, attempts
  // are left and the wait was not cut; otherwise it is in no later attempt.
  lemma SentAgainExactly(p: Provider, max: nat, targets: seq<Target>, i: nat, t: Target)
    requires max >= 1 && DistinctKeys(targets) && SenderContract(p) && t in targets
    requires var rounds := Rounds(p, max, 1, targets); i < |rounds| && t in rounds[i].pending
    ensures var rounds := Rounds(p, max, 1, targets);
            var again := AsksAgain(rounds[i].reply, t) && i + 1 < max && rounds[i].cut.None?;
            && rounds[i].reply == p.respond(i + 1, rounds[i].pending)
            && (again ==> i + 1 < |rounds| && t in rounds[i + 1].pending)
            && (!again ==> forall j :: i < j < |rounds| ==> t !in rounds[j].pending)
  {
    hide Rounds, FinalOf, Outcome, AsksAgain, Retryable, RetryCode, FinalResult, RetryTargets, Key;
    var rounds := Rounds(p, max, 1, targets);
    RoundsLinked(p, max, 1, targets, rounds);
    var k := TargetStory(p, max, targets, t);
    WellAnsweredRounds(p, max, 1, rounds, |rounds| - 1);
    AsksByCode(rounds[i].reply, t);
    FirstRoundFields(p, max, 1 + i, rounds[i].pending);
  }

  // Among the answers that ask for another attempt, the rate-limited ones.
  ghost predicate Limits(reply: Reply, t: Target) {
    if exists i :: 0 <= i < |reply.results| && Key(reply.results[i].target) == Key(t) then
      exists i :: 0 <= i < |reply.results| && Key(reply.results[i].target) == Key(t)
                  && reply.results[i].code == RateLimited
    else reply.err.Some? && reply.err.value.Classified? && reply.err.value.code == RateLimited
  }

  lemma LimitsByCode(reply: Reply, t: Target)
    requires OneResultPerKey(reply)
    ensures Limits(reply, t) <==> Outcome(reply, t).code == RateLimited
  {
    hide Key;
  }

  // After a round there is a wait exactly when some target is sent again: one second, or a
  // minute if one of them is rate limited, doubled for the second and again for every later
  // attempt, with jitter.
  lemma WaitExactly(p: Provider, max: nat, targets: seq<Target>, i: nat)
    requires max >= 1 && DistinctKeys(targets) && SenderContract(p) && i < |Rounds(p, max, 1, targets)|
    ensures var r := Rounds(p, max, 1, targets)[i];
            var base := (if exists t :: t in r.pending && Limits(r.reply, t) then 60_000_000_000 else 1_000_000_000)
                        * (if i == 0 then 1 else if i == 1 then 2 else 4);
            if i + 1 < max && exists t :: t in r.pending && AsksAgain(r.reply, t)
            then r.wait == Some(p.jitter(i + 1, base)) && r.cut == p.wait(i + 1, r.wait.value)
            else r.wait.None? && r.cut.None?
  {
    hide Rounds, Outcome, AsksAgain, Limits, Key, RetryCode, FinalResult, LastResult, Retryable;
    var rounds := Rounds(p, max, 1, targets);
    RoundsEnd(p, max, 1, targets);
    RoundsLinked(p, max, 1, targets, rounds);
    WellAnsweredRounds(p, max, 1, rounds, |rounds| - 1);
    var r := rounds[i];
    FirstRoundFields(p, max, 1 + i, r.pending);
    forall t | t in r.pending
      ensures r.more ==> (AsksAgain(r.reply, t) <==> RetryCode(r.reply, t, r.more).Some?)
      ensures r.more ==> (Limits(r.reply, t) <==> RetryCode(r.reply, t, r.more) == Some(RateLimited))
      ensures !r.more ==> RetryCode(r.reply, t, r.more).None?
    {
      AsksByCode(r.reply, t);
      LimitsByCode(r.reply, t);
      LimitedRetries(r.reply, t);
      RoundByOutcome(r, t);
    }
    if r.more { SomeRetry(r); } else { NoRetry(r.reply, r.pending, r.more); }
  }

  lemma LimitedRetries(reply: Reply, t: Target)
    ensures Outcome(reply, t).code == RateLimited ==> Retryable(Outcome(reply, t).code)
  {
    hide Outcome;
  }

  lemma SomeRetry(r: Round)
    ensures RetryTargets(r.reply, r.pending, r.more) != [] <==>
            exists t :: t in r.pending && RetryCode(r.reply, t, r.more).Some?
  {
    var retry := RetryTargets(r.reply, r.pending, r.more);
    assert retry != [] ==> retry[0] in retry;
  }

  lemma NoRetry(reply: Reply, pending: seq<Target>, more: bool)
    requires forall t :: t in pending ==> RetryCode(reply, t, more).None?
    ensures RetryTargets(reply, pending, more) == []
  {
    if pending != [] { NoRetry(reply, pending[1..], more); }
  }

  // A provider that answers rate limited and then success yields the success.
  lemma LimitedThenSuccess(p: Provider, max: nat, t: Target, limited: TargetResult, success: TargetResult)
    requires max >= 2 && SenderContract(p) && limited.target == t && limited.code == RateLimited
    requires success.target == t && success.code == NoError && success.err.None?
    requires p.respond(1, [t]) == Reply([limited], None) && p.respond(2, [t]) == Reply([success], None)
    requires forall delay :: p.wait(1, delay).None?
    ensures FinalOf(Rounds(p, max, 1, [t]), t) == Some(success)
  {
    hide Key, Rounds, FinalOf, Outcome, FinalResult, RetryTargets;
    var rounds := Rounds(p, max, 1, [t]);
    RoundsLinked(p, max, 1, [t], rounds);
    NotCut(p, max, 1, [t]);
    AsksInOne(limited, t);
    AsksInOne(success, t);
    SentAgainExactly(p, max, [t], 0, t);
    OnlyTarget(rounds[0], t);
    SentAgainExactly(p, max, [t], 1, t);
    var k := TargetStory(p, max, [t], t);
    assert k == 2;
    AnsweredOnce(success, t);
    assert rounds[..|rounds|] == rounds;
  }

  lemma NotCut(p: Provider, max: nat, attempt: nat, pending: seq<Target>)
    requires forall delay :: p.wait(attempt, delay).None?
    ensures FirstRound(p, max, attempt, pending).cut.None?
  {
  }

  lemma AsksInOne(r: TargetResult, t: Target)
    requires r.target == t
    ensures AsksAgain(Reply([r], None), t) <==> r.code == Transient || r.code == RateLimited
  {
    hide Key;
    assert Key([r][0].target) == Key(t);
  }

  // Only t can follow t alone.
  lemma OnlyTarget(r: Round, t: Target)
    requires r.pending == [t]
    ensures t in NextPending(r) ==> NextPending(r) == [t]
  {
    assert [t][1..] == [];
    assert RetryTargets(r.reply, [], r.more) == [];
  }

  lemma AnsweredOnce(r: TargetResult, t: Target)
    requires r.target == t && (r.err.None? || r.code != NoError)
    ensures Outcome(Reply([r], None), t) == r
  {
    hide Key;
    assert Key([r][0].target) == Key(t);
  }

  // What a target ends with, field by field: the answer in the last round that carried it, the
  // error of that round, or the cut of the wait after it.
  lemma ResultIsLastAnswer(p: Provider, max: nat, targets: seq<Target>, t: Target)
    returns (last: Round, answer: Option<TargetResult>)
    requires max >= 1 && DistinctKeys(targets) && SenderContract(p) && t in targets
    ensures last in Rounds(p, max, 1, targets) && t in last.pending
    ensures if exists i :: 0 <= i < |last.reply.results| && Key(last.reply.results[i].target) == Key(t)
            then answer.Some? && answer.value in last.reply.results && Key(answer.value.target) == Key(t)
            else answer.None?
    ensures var r := FinalOf(Rounds(p, max, 1, targets), t);
            && r.Some? && r.value.target == t
            && r.value.code == (if answer.None? then
                                  if last.reply.err.None? then Transient
                                  else if last.reply.err.value.Classified? then last.reply.err.value.code else Unknown
                                else if answer.value.err.Some? && answer.value.code == NoError then Unknown
                                else answer.value.code)
            && (if AsksAgain(last.reply, t) && last.more then
                  r.value.err == last.cut && r.value.messageId == "" && last.cut.Some?
                else if answer.Some? then r.value.messageId == answer.value.messageId && r.value.err == answer.value.err
                else r.value.messageId == "" && r.value.err.Some?
                     && (last.reply.err.Some? ==> r.value.err == last.reply.err))
  {
    hide Rounds, FinalOf, Key, Outcome, Retryable;
    var rounds := Rounds(p, max, 1, targets);
    var k := TargetStory(p, max, targets, t);
    last := rounds[k - 1];
    assert rounds[..|rounds|] == rounds;
    RoundsLinked(p, max, 1, targets, rounds);
    WellAnsweredRounds(p, max, 1, rounds, |rounds| - 1);
    AsksByCode(last.reply, t);
    answer := AnswerFields(last.reply, t);
  }

  lemma AnswerFields(reply: Reply, t: Target) returns (answer: Option<TargetResult>)
    requires OneResultPerKey(reply)
    ensures if exists i :: 0 <= i < |reply.results| && Key(reply.results[i].target) == Key(t)
            then answer.Some? && answer.value in reply.results && Key(answer.value.target) == Key(t) else answer.None?
    ensures var r := Outcome(reply, t);
            && r.target == t
            && r.code == (if answer.None? then
                            if reply.err.None? then Transient
                            else if reply.err.value.Classified? then reply.err.value.code else Unknown
                          else if answer.value.err.Some? && answer.value.code == NoError then Unknown
                          else answer.value.code)
            && (if answer.Some? then r.messageId == answer.value.messageId && r.err == answer.value.err
                else r.messageId == "" && r.err.Some? && (reply.err.Some? ==> r.err == reply.err))
  {
    hide Key;
    answer := None;
    if i :| 0 <= i < |reply.results| && Key(reply.results[i].target) == Key(t) {
      answer := Some(reply.results[i]);
    }
  }

  // ---- Delays ----------------------------------------------------------------------------------

  lemma JitterOnlyAdds(base: int, draw: nat)
    requires base >= 0
    ensures base <= BoundedRetryJitter(base, draw) <= base + base / 10
    ensures draw <= base / 10 ==> BoundedRetryJitter(base, draw) == base + draw
  {
  }

  ghost predicate BoundedJitter(p: Provider) {
    forall attempt: nat, base: int :: base >= 0 ==> base <= p.jitter(attempt, base) <= base + base / 10
  }

  lemma QuotaFloor(p: Provider, max: nat, targets: seq<Target>, i: nat, t: Target)
    requires max >= 1 && targets != [] && BoundedJitter(p)
    requires var rounds := Rounds(p, max, 1, targets);
             i < |rounds| && t in rounds[i].pending
             && RetryCode(rounds[i].reply, t, rounds[i].more) == Some(RateLimited)
    ensures var wait := Rounds(p, max, 1, targets)[i].wait; wait.Some? && wait.value >= 60 * SECOND
  {
    hide Rounds, RetryCode, RetryTargets;
    var rounds := Rounds(p, max, 1, targets);
    RoundsLinked(p, max, 1, targets, rounds);
    var r := rounds[i];
    assert r == FirstRound(p, max, 1 + i, r.pending);
    assert t in RetryTargets(r.reply, r.pending, r.more);
    assert AnyRateLimited(r.reply, r.pending, r.more);
  }

  function TotalWait(rounds: seq<Round>): int {
    if rounds == [] then 0
    else
      var last := rounds[|rounds| - 1];
      TotalWait(rounds[..|rounds| - 1]) + (if last.wait.Some? then last.wait.value else 0)
  }

  // The longest waits after 1, 2 and more failed attempts are 66, 132 and 264 seconds.
  function WaitCap(waits: nat): int {
    if waits == 0 then 0
    else if waits == 1 then 66 * SECOND
    else 198 * SECOND + (waits - 2) * 264 * SECOND
  }

  lemma OneWaitCap(p: Provider, max: nat, attempt: nat, pending: seq<Target>)
    requires attempt >= 1 && BoundedJitter(p)
    ensures var wait := FirstRound(p, max, attempt, pending).wait;
            wait.Some? ==> attempt < max && 0 <= wait.value <= WaitCap(attempt) - WaitCap(attempt - 1)
  {
    hide RetryTargets, AnyRateLimited;
    var r := FirstRound(p, max, attempt, pending);
    var retry := RetryTargets(r.reply, pending, r.more);
    if retry != [] {
      assert retry[0] in retry;
      RetryNeedsMore(r.reply, retry[0], r.more);
    }
  }

  lemma {:induction false} WaitsSoFar(p: Provider, max: nat, rounds: seq<Round>, j: nat)
    requires max >= 1 && BoundedJitter(p) && Answered(p, max, 1, rounds) && j <= |rounds| <= max
    ensures TotalWait(rounds[..j]) <= WaitCap(if j < max then j else max - 1)
  {
    hide FirstRound;
    if j > 0 {
      WaitsSoFar(p, max, rounds, j - 1);
      assert rounds[..j][..j - 1] == rounds[..j - 1];
      OneWaitCap(p, max, 1 + (j - 1), rounds[j - 1].pending);
    }
  }

  // All waits of a run, for any number of attempts; three attempts wait at most 198 s.
  lemma TotalWaitBound(p: Provider, max: nat, targets: seq<Target>)
    requires max >= 1 && BoundedJitter(p)
    ensures TotalWait(Rounds(p, max, 1, targets)) <= WaitCap(max - 1)
    ensures max == 3 ==> TotalWait(Rounds(p, max, 1, targets)) <= 198 * SECOND
  {
    hide Rounds, FirstRound;
    var rounds := Rounds(p, max, 1, targets);
    RoundsEnd(p, max, 1, targets);
    if targets != [] {
      RoundsLinked(p, max, 1, targets, rounds);
      WaitsSoFar(p, max, rounds, |rounds|);
      assert rounds[..|rounds|] == rounds;
    }
  }
}
