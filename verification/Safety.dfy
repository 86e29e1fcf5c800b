/** What every run of the scheduler keeps: fencing, no resending, bounded attempts, steady
    progress of a series and conservation of cleanup and failure reports. */
module Safety {
  import opened Push
  import opened Recurrence
  import opened Worker
  import opened Protocol

  // ---- Fencing -----------------------------------------------------------------------

  // A worker's Finish is stored exactly when the last write of the document was its own
  // claim; otherwise nothing changes.
  lemma Fencing(steps: seq<Step>, token: string)
    requires Run(Init(), steps) && Legal(Exec(Init(), steps), Finish(token))
    ensures var s := Exec(Init(), steps);
            var c := s.claims[token];
            var (docs, err) := FinishDoc(s.docs, c.job, c.phase.updated);
            && KeyOf(c.job) in s.hist && (err.None? <==> s.hist[KeyOf(c.job)].writer == ByClaim(token))
            && docs == Apply(s, Finish(token)).docs
            && docs == (if err.None? then s.docs[KeyOf(c.job) := Delivered(c.job, c.phase.attempt)] else s.docs)
            && (err.None? ==> s.docs[KeyOf(c.job)] == c.job)
  {
    hide Exec, Run, Delivered, DocOk, Sound, DistinctIds;
    var s := Exec(Init(), steps);
    Reachable(steps);
    HolderIsLastWriter(s, token);
    var c := s.claims[token];
    assert ClaimOk(s, token, c);
    DeliveredKeepsKey(c.job, c.phase.attempt);
  }

  lemma DeliveredKeepsKey(job: Job, a: Attempt)
    requires Sound(job) && job.state == Ready && Timed(job, a)
    ensures KeyOf(Delivered(job, a)) == KeyOf(job) && SameJob(job, Delivered(job, a))
            && Delivered(job, a).leaseToken == ""
  {
    hide Delivered, EndingOf, Sound;
    AttemptEnds(job, a);
  }

  ghost predicate Writes(s: System, step: Step, key: Key) {
    match step
    case Put(uid, id, _, _, _, _, _) => key == Key(uid, id)
    case Cancel(k, _) => key == k
    case TakeLease(k, shard, _, now, _) => key == k && Claimable(s.docs, key, shard, now)
    case Finish(token) =>
      token in s.claims && s.claims[token].phase.Held? && KeyOf(s.claims[token].job) == key
      && HoldsLease(s.docs, s.claims[token].job)
    case _ => false
  }

  lemma OnlyWritersWrite(s: System, step: Step, key: Key)
    requires Inv(s) && Legal(s, step) && key in s.docs && !Writes(s, step, key)
    ensures key in Apply(s, step).docs && Apply(s, step).docs[key] == s.docs[key]
    ensures key in Apply(s, step).hist && Apply(s, step).hist[key] == s.hist[key]
  {
    hide Delivered, AfterFinish, NextDue, DocOk, ClaimOk, DistinctIds;
  }

  // Done, Failed and Canceled are left only by Put, or for Canceled by Cancel.
  lemma TerminalLeftByPutOrCancel(steps: seq<Step>, step: Step, key: Key)
    requires Run(Init(), steps) && Legal(Exec(Init(), steps), step)
    requires var s := Exec(Init(), steps); key in s.docs && s.docs[key].state != Ready
    ensures var s := Exec(Init(), steps);
            var s' := Apply(s, step);
            && key in s'.docs
            && (s'.docs[key] == s.docs[key] || step.Put? || (step.Cancel? && s'.docs[key].state == Canceled))
  {
    hide Exec, Run, Apply, Legal;
    var s := Exec(Init(), steps);
    Reachable(steps);
    if !Writes(s, step, key) {
      OnlyWritersWrite(s, step, key);
    } else {
      WritesToTerminal(s, step, key);
    }
  }

  lemma WritesToTerminal(s: System, step: Step, key: Key)
    requires Inv(s) && Legal(s, step) && key in s.docs && s.docs[key].state != Ready && Writes(s, step, key)
    ensures key in Apply(s, step).docs
    ensures step.Put? || (step.Cancel? && Apply(s, step).docs[key].state == Canceled)
  {
    hide Delivered, AfterFinish, NextDue, DocOk, ClaimOk, DistinctIds;
  }

  lemma StrangerStaysStranger(s: System, step: Step, key: Key, token: string)
    requires Inv(s) && Legal(s, step) && token in s.used
    requires key in s.hist && s.hist[key].writer != ByClaim(token)
    ensures token in Apply(s, step).used
    ensures key in Apply(s, step).hist && Apply(s, step).hist[key].writer != ByClaim(token)
  {
    hide Delivered, NextDue, DocOk, ClaimOk, DistinctIds, Reports, DisabledBy, EndingOf, ReportsPermanent;
  }

  lemma {:induction false} StrangerForever(s: System, steps: seq<Step>, key: Key, token: string)
    requires Inv(s) && Run(s, steps) && token in s.used
    requires key in s.hist && s.hist[key].writer != ByClaim(token)
    ensures var s' := Exec(s, steps); key in s'.hist && s'.hist[key].writer != ByClaim(token)
    decreases steps
  {
    hide Inv, Legal, Apply;
    if steps != [] {
      StepKeepsInv(s, steps[0]);
      StrangerStaysStranger(s, steps[0], key, token);
      StrangerForever(Apply(s, steps[0]), steps[1..], key, token);
    }
  }

  // Once a job was replaced or canceled, no claim taken before can ever write it again.
  lemma OldClaimsNeverWrite(before: seq<Step>, after: seq<Step>, key: Key, token: string)
    requires Run(Init(), before) && Run(Exec(Init(), before), after)
    requires var s := Exec(Init(), before);
             token in s.used && key in s.hist && (s.hist[key].writer.ByPut? || s.hist[key].writer.ByCancel?)
    requires var s' := Exec(Exec(Init(), before), after);
             Legal(s', Finish(token)) && KeyOf(s'.claims[token].job) == key
    ensures var s' := Exec(Exec(Init(), before), after); Apply(s', Finish(token)).docs == s'.docs
  {
    hide Exec, Run, Inv, Legal;
    var s := Exec(Init(), before);
    Reachable(before);
    StrangerForever(s, after, key, token);
    RunKeepsInv(s, after);
    NotHolderNoWrite(Exec(s, after), token);
  }

  lemma NotHolderNoWrite(s: System, token: string)
    requires Inv(s) && Legal(s, Finish(token))
    requires s.hist[KeyOf(s.claims[token].job)].writer != ByClaim(token)
    ensures Apply(s, Finish(token)).docs == s.docs
  {
    hide DocOk, ClaimOk, AfterFinish;
    HolderIsLastWriter(s, token);
  }

  // ---- Progress of one key ---------------------------------------------------------------

  ghost function CompletedIds(job: Job): set<string> {
    set id | id in job.completed
  }

  // A later state of the key: a newer Put, or a later occurrence of the same series, or the
  // same occurrence with at least as many acknowledged targets and finishes.
  ghost predicate Later(s: System, s': System, key: Key) {
    key in s.docs ==>
      && key in s'.docs && key in s.hist && key in s'.hist
      && (s.hist[key].gen < s'.hist[key].gen
          || (s.hist[key].gen == s'.hist[key].gen
              && s'.docs[key].daily == s.docs[key].daily
              && ((s.docs[key].daily.Some? && s.docs[key].dueAt < s'.docs[key].dueAt)
                  || (s.docs[key].dueAt == s'.docs[key].dueAt
                      && CompletedIds(s.docs[key]) <= CompletedIds(s'.docs[key])))))
  }

  lemma LaterFinish(s: System, token: string, key: Key)
    requires Inv(s) && Legal(s, Finish(token)) && key in s.docs && Writes(s, Finish(token), key)
    ensures Later(s, Apply(s, Finish(token)), key)
    ensures var a := s.claims[token].phase.attempt;
            EndingOf(s.docs[key], a).Advanced? ==>
              Apply(s, Finish(token)).docs[key].dueAt > a.endedAt >= s.docs[key].dueAt
    ensures var a := s.claims[token].phase.attempt;
            Apply(s, Finish(token)).hist[key].finishes ==
            if EndingOf(s.docs[key], a).Advanced? then 0 else s.hist[key].finishes + 1
    ensures var s' := Apply(s, Finish(token));
            EndingOf(s.docs[key], s.claims[token].phase.attempt).Advanced? <==> s'.docs[key].dueAt != s.docs[key].dueAt
  {
    hide Apply, Delivered, EndingOf, DocOk, Sound, DistinctIds, Reports, DisabledBy, ReportsPermanent, IsNext;
    var c := s.claims[token];
    FinishShape(s, token, key);
    AttemptEnds(c.job, c.phase.attempt);
    AdvancesDaily(c.job, c.phase.attempt);
  }

  lemma AdvancesDaily(job: Job, a: Attempt)
    ensures EndingOf(job, a).Advanced? ==> job.daily.Some?
  {
  }

  // A finish that is stored writes what the attempt left of the claimed document.
  lemma FinishShape(s: System, token: string, key: Key)
    requires Inv(s) && Legal(s, Finish(token)) && key in s.docs && Writes(s, Finish(token), key)
    ensures var c := s.claims[token];
            var s' := Apply(s, Finish(token));
            && key in s.hist && key in s'.docs && key in s'.hist
            && c.job == s.docs[key] && Sound(c.job) && Timed(c.job, c.phase.attempt) && c.job.state == Ready
            && s'.docs[key] == Delivered(c.job, c.phase.attempt)
            && s'.hist[key] == AfterFinish(s.hist[key], token, c.job, c.phase.attempt)
  {
    hide Delivered, AfterFinish, EndingOf, DocOk, Sound, DistinctIds;
    var c := s.claims[token];
    assert ClaimOk(s, token, c);
    HolderIsLastWriter(s, token);
    DeliveredKeepsKey(c.job, c.phase.attempt);
  }

  lemma LaterStep(s: System, step: Step, key: Key)
    requires Inv(s) && Legal(s, step)
    ensures Later(s, Apply(s, step), key)
  {
    hide Inv, Legal, CompletedIds, Apply;
    if key in s.docs {
      InvKeys(s, key);
      if !Writes(s, step, key) {
        OnlyWritersWrite(s, step, key);
      } else if step.Finish? {
        LaterFinish(s, step.token, key);
      } else {
        LaterWrite(s, step, key);
      }
    }
  }

  lemma LaterWrite(s: System, step: Step, key: Key)
    requires Inv(s) && Legal(s, step) && key in s.docs && Writes(s, step, key) && !step.Finish?
    ensures Later(s, Apply(s, step), key)
  {
    hide Inv, NewJob;
    InvKeys(s, key);
    NewJobKey(step);
  }

  lemma InvKeys(s: System, key: Key)
    requires Inv(s) && key in s.docs
    ensures key in s.hist && DocOk(key, s.docs[key], s.hist[key], s.used)
  {
  }

  lemma NewJobKey(step: Step)
    ensures step.Put? ==>
              var job := NewJob(step.uid, step.id, step.daily, step.at, step.message, step.shard, step.now);
              job.Some? ==> KeyOf(job.value) == Key(step.uid, step.id)
  {
  }

  lemma {:induction false} LaterRun(s: System, steps: seq<Step>, key: Key)
    requires Inv(s) && Run(s, steps)
    ensures Later(s, Exec(s, steps), key)
    decreases steps
  {
    hide Inv, Legal, Apply, CompletedIds;
    if steps == [] {
      if key in s.docs { InvKeys(s, key); }
    } else {
      StepKeepsInv(s, steps[0]);
      LaterStep(s, steps[0], key);
      LaterRun(Apply(s, steps[0]), steps[1..], key);
    }
  }

  // Within one occurrence, Completed only grows.
  lemma CompletedOnlyGrows(before: seq<Step>, after: seq<Step>, key: Key)
    requires Run(Init(), before) && Run(Exec(Init(), before), after)
    requires var s := Exec(Init(), before);
             var s' := Exec(s, after);
             key in s.docs && GenOf(s, key) == GenOf(s', key) && key in s'.docs
             && s.docs[key].dueAt == s'.docs[key].dueAt
    ensures var s := Exec(Init(), before);
            forall id :: id in s.docs[key].completed ==> id in Exec(s, after).docs[key].completed
  {
    hide Exec, Run, Inv;
    Reachable(before);
    LaterRun(Exec(Init(), before), after, key);
    assert forall id :: id in Exec(Init(), before).docs[key].completed ==>
             id in CompletedIds(Exec(Init(), before).docs[key]);
  }

  // ---- No resending --------------------------------------------------------------------------

  // For claims and sends with tokens not in prior: those of this occurrence leave out ids.
  ghost predicate LeavesOut(s: System, key: Key, gen: nat, due: int, ids: set<string>, prior: set<string>) {
    && key in s.docs && key in s.hist && prior <= s.used
    && (s.hist[key].gen > gen
        || (s.hist[key].gen == gen
            && (s.docs[key].dueAt > due || (s.docs[key].dueAt == due && ids <= CompletedIds(s.docs[key])))))
    && (forall t ::
          t in s.claims && t !in prior && KeyOf(s.claims[t].job) == key && s.claims[t].gen == gen
          && s.claims[t].job.dueAt == due
          ==> ids <= CompletedIds(s.claims[t].job))
    && (forall i ::
          0 <= i < |s.sends| && s.sends[i].token !in prior && s.sends[i].key == key && s.sends[i].gen == gen
          && s.sends[i].dueAt == due
          ==> s.sends[i].ids !! ids)
  }

  lemma SentExcludesCompleted(job: Job, a: Attempt)
    ensures IdsSent(job, a) !! CompletedIds(job)
  {
  }

  ghost predicate TokensKnown(s: System) {
    forall i :: 0 <= i < |s.sends| ==> s.sends[i].token in s.used
  }

  lemma LeavesOutStep(s: System, step: Step, key: Key, gen: nat, due: int, ids: set<string>, prior: set<string>)
    requires Inv(s) && Legal(s, step) && LeavesOut(s, key, gen, due, ids, prior)
    requires TokensKnown(s)
    ensures LeavesOut(Apply(s, step), key, gen, due, ids, prior)
    ensures TokensKnown(Apply(s, step))
  {
    hide Inv, CompletedIds, Delivered, NewJob, AfterFinish, DistinctIds, IdsSent;
    LaterStep(s, step, key);
    match step
    case TakeLease(k, shard, token, now, lease) =>
      if Claimable(s.docs, k, shard, now) && k == key {
        assert KeyOf(s.docs[key]) == key by { InvKeys(s, key); DocKey(s, key); }
        LeasedDone(s.docs[key], token, now, lease);
      } else if Claimable(s.docs, k, shard, now) {
        InvKeys(s, k);
        DocKey(s, k);
      }
    case Work(token, a) =>
      var c := s.claims[token];
      SentExcludesCompleted(c.job, a);
      assert token in s.used by { ClaimUsed(s, token); }
    case _ =>
  }

  lemma LeasedDone(job: Job, token: string, now: int, lease: int)
    ensures CompletedIds(Leased(job, token, now, lease)) == CompletedIds(job)
  {
  }

  lemma DocKey(s: System, key: Key)
    requires key in s.docs && key in s.hist && DocOk(key, s.docs[key], s.hist[key], s.used)
    ensures KeyOf(s.docs[key]) == key && Sound(s.docs[key])
  {
  }

  lemma ClaimUsed(s: System, token: string)
    requires Inv(s) && token in s.claims
    ensures token in s.used && token != ""
  {
  }

  lemma {:induction false} LeavesOutRun(s: System, steps: seq<Step>, key: Key, gen: nat, due: int, ids: set<string>,
                                        prior: set<string>)
    requires Inv(s) && Run(s, steps) && LeavesOut(s, key, gen, due, ids, prior)
    requires TokensKnown(s)
    ensures LeavesOut(Exec(s, steps), key, gen, due, ids, prior)
    decreases steps
  {
    hide Inv, Legal, Apply, LeavesOut;
    if steps != [] {
      StepKeepsInv(s, steps[0]);
      LeavesOutStep(s, steps[0], key, gen, due, ids, prior);
      LeavesOutRun(Apply(s, steps[0]), steps[1..], key, gen, due, ids, prior);
    }
  }

  lemma {:induction false} TokensUsed(s: System, steps: seq<Step>)
    requires Inv(s) && Run(s, steps) && TokensKnown(s)
    ensures TokensKnown(Exec(s, steps))
    decreases steps
  {
    hide Inv, Legal;
    if steps != [] {
      StepKeepsInv(s, steps[0]);
      TokensUsedStep(s, steps[0]);
      TokensUsed(Apply(s, steps[0]), steps[1..]);
    }
  }

  lemma TokensUsedStep(s: System, step: Step)
    requires Inv(s) && Legal(s, step) && TokensKnown(s)
    ensures TokensKnown(Apply(s, step))
  {
    hide Inv, Delivered, NewJob, AfterFinish, DistinctIds, IdsSent;
    if step.Work? { ClaimUsed(s, step.token); }
  }

  // A target persisted as completed is in no send made under a claim taken afterwards, for
  // as long as the occurrence lasts.
  lemma NoResend(before: seq<Step>, after: seq<Step>, key: Key, i: nat)
    requires Run(Init(), before) && Run(Exec(Init(), before), after) && key in Exec(Init(), before).docs
    requires i < |Exec(Exec(Init(), before), after).sends|
    requires var s := Exec(Init(), before);
             var r := Exec(s, after).sends[i];
             r.token !in s.used && r.key == key && r.gen == GenOf(s, key) && r.dueAt == s.docs[key].dueAt
    ensures var s := Exec(Init(), before);
            var r := Exec(s, after).sends[i];
            forall id :: id in s.docs[key].completed ==> id !in r.ids
  {
    hide Exec, Run, Inv;
    var s := Exec(Init(), before);
    Reachable(before);
    InvKeys(s, key);
    InitTokens();
    TokensUsed(Init(), before);
    var ids := CompletedIds(s.docs[key]);
    forall t | t in s.claims ensures t in s.used { ClaimUsed(s, t); }
    LeavesOutRun(s, after, key, s.hist[key].gen, s.docs[key].dueAt, ids, s.used);
    assert forall id :: id in s.docs[key].completed ==> id in ids;
  }

  lemma InitTokens()
    ensures Inv(Init()) && Init().sends == []
  {
  }

  // ---- Attempts are bounded -------------------------------------------------------------------

  // The successful finishes of a key in a run.
  ghost function Saves(s: System, steps: seq<Step>, key: Key): nat
    requires Run(s, steps)
    decreases steps
  {
    if steps == [] then 0
    else (if steps[0].Finish? && Writes(s, steps[0], key) then 1 else 0) + Saves(Apply(s, steps[0]), steps[1..], key)
  }

  lemma SavesStep(s: System, step: Step, key: Key)
    requires Inv(s) && Legal(s, step) && key in s.docs
    requires key in Apply(s, step).docs && key in Apply(s, step).hist
    requires s.hist[key].gen == Apply(s, step).hist[key].gen && s.docs[key].dueAt == Apply(s, step).docs[key].dueAt
    ensures Apply(s, step).hist[key].finishes
              == s.hist[key].finishes + (if step.Finish? && Writes(s, step, key) then 1 else 0)
  {
    hide Inv, Legal;
    InvKeys(s, key);
    if !Writes(s, step, key) {
      hide Apply;
      OnlyWritersWrite(s, step, key);
    } else if step.Finish? {
      hide Apply;
      LaterFinish(s, step.token, key);
    } else {
      hide NewJob;
      NewJobKey(step);
    }
  }

  lemma {:induction false} SavesCount(s: System, steps: seq<Step>, key: Key)
    requires Inv(s) && Run(s, steps) && key in s.docs
    requires var s' := Exec(s, steps);
             key in s'.docs && key in s'.hist && GenOf(s, key) == GenOf(s', key)
             && s.docs[key].dueAt == s'.docs[key].dueAt
    ensures Exec(s, steps).hist[key].finishes == s.hist[key].finishes + Saves(s, steps, key)
    decreases steps
  {
    hide Inv, Legal, Apply, Writes;
    InvKeys(s, key);
    if steps != [] {
      var mid := Apply(s, steps[0]);
      StepKeepsInv(s, steps[0]);
      LaterStep(s, steps[0], key);
      LaterRun(mid, steps[1..], key);
      SavesStep(s, steps[0], key);
      SavesCount(mid, steps[1..], key);
    }
  }

  // An occurrence is finished at most five times, a ready job has had fewer than five
  // attempts, and a one-off job is no longer ready after the fifth finish since its Put.
  lemma AtMostFiveFinishes(before: seq<Step>, after: seq<Step>, key: Key)
    requires Run(Init(), before) && Run(Exec(Init(), before), after) && key in Exec(Init(), before).docs
    requires var s := Exec(Init(), before);
             var s' := Exec(s, after);
             key in s'.docs && GenOf(s, key) == GenOf(s', key) && s.docs[key].dueAt == s'.docs[key].dueAt
    ensures var s := Exec(Init(), before);
            var s' := Exec(s, after);
            && Saves(s, after, key) <= 5
            && (s'.docs[key].state == Ready ==> Saves(s, after, key) <= s'.docs[key].attempts < 5)
  {
    hide Exec, Run, Inv, Saves;
    var s := Exec(Init(), before);
    Reachable(before);
    RunKeepsInv(s, after);
    InvKeys(s, key);
    InvKeys(Exec(s, after), key);
    SavesCount(s, after, key);
    CountedDoc(key, Exec(s, after).docs[key], Exec(s, after).hist[key], Exec(s, after).used);
  }

  // The finish that ends the occurrence included: whenever a finish writes the key, fewer than
  // five have been stored for the occurrence before it.
  lemma FinishesWithTheLast(before: seq<Step>, after: seq<Step>, key: Key, token: string)
    requires Run(Init(), before) && Run(Exec(Init(), before), after) && key in Exec(Init(), before).docs
    requires var s := Exec(Init(), before);
             var s' := Exec(s, after);
             && key in s'.docs && GenOf(s, key) == GenOf(s', key) && s.docs[key].dueAt == s'.docs[key].dueAt
             && Legal(s', Finish(token)) && Writes(s', Finish(token), key)
    ensures var s := Exec(Init(), before);
            Run(s, after + [Finish(token)])
            && Saves(s, after + [Finish(token)], key) == Saves(s, after, key) + 1 <= 5
  {
    hide Exec, Run, Inv, Saves, Legal;
    AtMostFiveFinishes(before, after, key);
    WrittenWhileReady(Exec(Exec(Init(), before), after), token, key);
    SavesSnoc(Exec(Init(), before), after, Finish(token), key);
  }

  lemma WrittenWhileReady(s: System, token: string, key: Key)
    requires Writes(s, Finish(token), key)
    ensures key in s.docs && s.docs[key].state == Ready
  {
  }

  lemma {:induction false} SavesSnoc(s: System, steps: seq<Step>, last: Step, key: Key)
    requires Run(s, steps) && Legal(Exec(s, steps), last)
    ensures Run(s, steps + [last])
    ensures Saves(s, steps + [last], key)
            == Saves(s, steps, key) + (if last.Finish? && Writes(Exec(s, steps), last, key) then 1 else 0)
    decreases steps
  {
    hide Legal, Apply, Writes;
    var all := steps + [last];
    if steps == [] {
      assert all == [last] && all[1..] == [];
    } else {
      assert all[1..] == steps[1..] + [last];
      SavesSnoc(Apply(s, steps[0]), steps[1..], last, key);
    }
  }

  lemma CountedDoc(key: Key, job: Job, h: History, used: set<string>)
    requires DocOk(key, job, h, used)
    ensures h.finishes <= MAX_ATTEMPTS && (job.state == Ready ==> h.finishes == job.attempts < MAX_ATTEMPTS)
  {
  }

  // A one-off job keeps its due time until the next Put, so the bound covers its whole life.
  lemma OneOffKeepsDue(before: seq<Step>, after: seq<Step>, key: Key)
    requires Run(Init(), before) && Run(Exec(Init(), before), after)
    requires var s := Exec(Init(), before);
             key in s.docs && s.docs[key].daily.None? && GenOf(s, key) == GenOf(Exec(s, after), key)
    ensures var s' := Exec(Exec(Init(), before), after);
            key in s'.docs && s'.docs[key].dueAt == Exec(Init(), before).docs[key].dueAt
  {
    hide Exec, Run, Inv, CompletedIds;
    Reachable(before);
    InvKeys(Exec(Init(), before), key);
    LaterRun(Exec(Init(), before), after, key);
  }

  lemma OneOffIsTerminal(before: seq<Step>, after: seq<Step>, key: Key)
    requires Run(Init(), before) && Run(Exec(Init(), before), after)
    requires var s := Exec(Init(), before);
             key in s.docs && s.docs[key].daily.None? && GenOf(s, key) == GenOf(Exec(s, after), key)
    ensures var s := Exec(Init(), before);
            var s' := Exec(s, after);
            && Saves(s, after, key) <= 5 && key in s'.docs
            && (Saves(s, after, key) == 5 ==> s'.docs[key].state != Ready)
  {
    hide Exec, Run, Saves;
    OneOffKeepsDue(before, after, key);
    AtMostFiveFinishes(before, after, key);
  }

  // ---- Series -----------------------------------------------------------------------------------

  // Between two states of one Put generation a daily job's due time never goes back, two due
  // times are on the same local date only if they are equal, and it is never due later than
  // available.
  lemma SeriesProgress(before: seq<Step>, after: seq<Step>, key: Key)
    requires Run(Init(), before) && Run(Exec(Init(), before), after) && key in Exec(Init(), before).docs
    requires GenOf(Exec(Init(), before), key) == GenOf(Exec(Exec(Init(), before), after), key)
    requires Exec(Init(), before).docs[key].daily.Some?
    ensures var s := Exec(Init(), before);
            var s' := Exec(s, after);
            && key in s'.docs && s'.docs[key].daily == s.docs[key].daily
            && s.docs[key].daily.value.Valid()
            && s.docs[key].dueAt <= s'.docs[key].dueAt <= s'.docs[key].availableAt
            && (s.docs[key].dueAt == s'.docs[key].dueAt <==>
                LocalDate(s.docs[key].daily.value.zone.value, s.docs[key].dueAt)
                == LocalDate(s.docs[key].daily.value.zone.value, s'.docs[key].dueAt))
  {
    hide Exec, Run, Inv, CompletedIds, LocalDate, OccursAt;
    var s := Exec(Init(), before);
    var s' := Exec(s, after);
    Reachable(before);
    RunKeepsInv(s, after);
    InvKeys(s, key);
    LaterRun(s, after, key);
    InvKeys(s', key);
    DueFacts(key, s.docs[key], s.hist[key], s.used);
    DueFacts(key, s'.docs[key], s'.hist[key], s'.used);
    OneOccurrencePerDate(s.docs[key].daily.value.zone.value, s.docs[key].daily.value.localTime, s.docs[key].dueAt,
                         s'.docs[key].dueAt);
  }

  lemma DueFacts(key: Key, job: Job, h: History, used: set<string>)
    requires DocOk(key, job, h, used)
    ensures DueOnDate(job) && job.dueAt <= job.availableAt
  {
  }

  // However many occurrences were missed, the finish that advances a series moves it past
  // the clock reading of that attempt: one catch-up at most.
  lemma OneCatchUp(steps: seq<Step>, token: string, key: Key)
    requires Run(Init(), steps) && Legal(Exec(Init(), steps), Finish(token)) && key in Exec(Init(), steps).docs
    requires Writes(Exec(Init(), steps), Finish(token), key)
    requires EndingOf(Exec(Init(), steps).docs[key], Exec(Init(), steps).claims[token].phase.attempt).Advanced?
    ensures var s := Exec(Init(), steps);
            Apply(s, Finish(token)).docs[key].dueAt > s.claims[token].phase.attempt.endedAt >= s.docs[key].dueAt
  {
    hide Exec, Run, Inv, Apply, Legal, Writes, EndingOf;
    Reachable(steps);
    LaterFinish(Exec(Init(), steps), token, key);
  }

  // ---- Conservation --------------------------------------------------------------------------------

  // InvalidTargets holds exactly the installations that a stored attempt since the Put has
  // reported unregistered and no stored attempt has retired since that report. What waits is
  // completed; nothing waits when an occurrence begins or in a done job, and a done job saw
  // no permanent failure in its occurrence.
  lemma Conservation(steps: seq<Step>, key: Key)
    requires Run(Init(), steps) && key in Exec(Init(), steps).docs
    ensures var s := Exec(Init(), steps);
            var job := s.docs[key];
            key in s.hist
            && var h := s.hist[key];
            && (forall id :: id in h.outstanding <==> id in job.invalidTargets)
            && (forall id :: id in job.invalidTargets ==> id in job.completed)
            && (job.state == Ready && job.attempts == 0 ==> job.invalidTargets == [] && job.completed == [])
            && (job.hasPermanentFailure <==> h.permanent)
            && (job.state == JobState.Done ==> job.invalidTargets == [] && !h.permanent)
  {
    hide Exec, Run, Inv;
    Reachable(steps);
    InvKeys(Exec(Init(), steps), key);
  }
}
