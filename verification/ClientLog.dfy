/** What one device does over its life, as a log of backend calls and of writes to its
    persisted binding. A crash leaves a prefix of the log. */
module ClientLog {
  import opened Push
  import opened Ordering

  datatype Phase = Bound | PendingUnbind

  datatype Metadata = Metadata(platform: string, permission: string, timezone: string, enabled: bool)

  datatype DeviceTarget = DeviceTarget(provider: string, targetType: string, value: string)

  datatype Binding = Binding(account: string, current: string, target: DeviceTarget, metadata: Option<Metadata>,
                             lastSeen: Option<int>, phase: Phase, pending: seq<string>)

  datatype Reply = Ok | NotFound | Failed | Cancelled

  // Registering answers with an installation id, or fails.
  datatype Event =
    | Register(target: DeviceTarget, given: Option<string>)
    | Heartbeat(id: string, reply: Reply)
    | Unregister(id: string, reply: Reply)
    | Save(binding: Binding)
    | Clear(forgotten: bool)
    | Restart

  predicate IsSpace(c: char) {
    c == ' ' || c == '\t' || c == '\n' || c == '\r'
  }

  predicate Blank(s: string) {
    forall i :: 0 <= i < |s| ==> IsSpace(s[i])
  }

  lemma BlankIs(s: string)
    ensures Blank(s) <==> forall c :: c in s ==> c == ' ' || c == '\t' || c == '\n' || c == '\r'
  {
    assert forall i :: 0 <= i < |s| ==> s[i] in s;
  }

  // ---- What a log amounts to ---------------------------------------------------------------

  function SavedAt(log: seq<Event>): Option<Binding> {
    if log == [] then None
    else
      match log[|log| - 1]
      case Save(b) => Some(b)
      case Clear(_) => None
      case _ => SavedAt(log[..|log| - 1])
  }

  // The id just registered and not saved yet.
  ghost function InHand(log: seq<Event>): set<string> {
    if log == [] then {} else Gained(log[|log| - 1])
  }

  ghost function Gained(e: Event): set<string> {
    if e.Register? && e.given.Some? && !Blank(e.given.value) then {e.given.value} else {}
  }

  // An installation is gone once it was unregistered or the backend does not know it, or
  // when its account was.
  predicate Ends(e: Event, id: string) {
    match e
    case Unregister(x, reply) => x == id && (reply.Ok? || reply.NotFound?)
    case Heartbeat(x, reply) => x == id && reply.NotFound?
    case Clear(forgotten) => forgotten
    case _ => false
  }

  // The registered installations that may still exist. A registration that was in hand at
  // a crash is not counted: its reply was never saved.
  ghost function Live(log: seq<Event>): set<string>
    decreases |log|
  {
    if log == [] then {}
    else
      var e := log[|log| - 1];
      var before := log[..|log| - 1];
      if e.Restart? && InHand(before) != {} then Live(before[..|before| - 1])
      else (set id | id in Live(before) && !Ends(e, id)) + Gained(e)
  }

  ghost function Ids(saved: Option<Binding>): set<string> {
    if saved.None? then {} else {saved.value.current} + Elements(saved.value.pending)
  }

  ghost predicate Tidy(b: Binding) {
    SortedIds(b.pending) && b.current !in b.pending
  }

  // ---- The rules of the log ------------------------------------------------------------------

  // What is saved names every installation that may exist, stays with its account, and
  // keeps a binding quarantined once it is; the binding is dropped only when no installation
  // is left or its account is; calls are made only while everything is saved.
  ghost predicate Lawful(saved: Option<Binding>, live: set<string>, e: Event) {
    match e
    case Save(b) =>
      Tidy(b) && live <= Ids(Some(b))
      && (saved.Some? ==> b.account == saved.value.account)
      && (saved.Some? && saved.value.phase.PendingUnbind? ==> b == saved.value)
    case Clear(forgotten) => saved.Some? && (forgotten || live == {})
    case Restart => true
    case _ => live <= Ids(saved)
  }

  ghost predicate Good(log: seq<Event>) {
    log == [] || (Good(log[..|log| - 1]) && Lawful(SavedAt(log[..|log| - 1]), Live(log[..|log| - 1]), log[|log| - 1]))
  }

  lemma Snoc(log: seq<Event>, e: Event)
    requires Good(log) && Lawful(SavedAt(log), Live(log), e)
    ensures Good(log + [e])
    ensures SavedAt(log + [e]) == (if e.Save? then Some(e.binding) else if e.Clear? then None else SavedAt(log))
    ensures !e.Restart? ==> Live(log + [e]) == (set id | id in Live(log) && !Ends(e, id)) + Gained(e)
    ensures e.Restart? ==> Live(log + [e]) <= Ids(SavedAt(log))
  {
    assert (log + [e])[..|log|] == log;
    if e.Restart? {
      NoIdLost(log);
      if InHand(log) != {} { assert Lawful(SavedAt(log[..|log| - 1]), Live(log[..|log| - 1]), log[|log| - 1]); }
    }
  }

  lemma {:induction false} Prefix(log: seq<Event>, k: nat)
    requires Good(log) && k <= |log|
    ensures Good(log[..k])
    decreases |log|
  {
    if k < |log| {
      Prefix(log[..|log| - 1], k);
      assert log[..|log| - 1][..k] == log[..k];
    } else {
      assert log[..k] == log;
    }
  }

  // No id is lost: at every point, every registered installation that may exist is the
  // current id or waits for cleanup, but for one just registered.
  lemma {:induction false} NoIdLost(log: seq<Event>)
    requires Good(log)
    ensures Live(log) <= Ids(SavedAt(log)) + InHand(log)
    decreases |log|
  {
    if log != [] {
      NoIdLost(log[..|log| - 1]);
    }
  }

  // The same at every point, for a life of the device that kept to the rules; and every
  // binding ever saved lists its waiting ids sorted, once each and without the current one.
  ghost predicate Tracked(log: seq<Event>) {
    && (forall k :: 0 <= k <= |log| ==> Live(log[..k]) <= Ids(SavedAt(log[..k])) + InHand(log[..k]))
    && (forall b :: Event.Save(b) in log ==> Tidy(b))
  }

  lemma GoodIsTracked(log: seq<Event>)
    requires Good(log)
    ensures Tracked(log)
  {
    forall k | 0 <= k <= |log| ensures Live(log[..k]) <= Ids(SavedAt(log[..k])) + InHand(log[..k]) {
      Prefix(log, k);
      NoIdLost(log[..k]);
    }
    forall b | Event.Save(b) in log ensures Tidy(b) {
      var k :| 0 <= k < |log| && log[k] == Event.Save(b);
      Prefix(log, k + 1);
      assert log[..k + 1][..k] == log[..k];
    }
  }

  lemma {:induction false} SavedIsTidy(log: seq<Event>)
    requires Good(log) && SavedAt(log).Some?
    ensures Tidy(SavedAt(log).value) && Event.Save(SavedAt(log).value) in log
    decreases |log|
  {
    if log != [] && !log[|log| - 1].Save? { SavedIsTidy(log[..|log| - 1]); }
  }

  ghost predicate Crashed(log: seq<Event>, k: nat) {
    k + 1 < |log| && log[k + 1].Restart?
  }

  ghost predicate Standing(log: seq<Event>, k: nat, id: string) {
    k < |log| && id in Gained(log[k]) && !Crashed(log, k) && forall m :: k < m < |log| ==> !Ends(log[m], id)
  }

  // An installation may exist exactly when it was registered and nothing ended it since.
  lemma {:induction false} LiveMeans(log: seq<Event>, id: string)
    ensures id in Live(log) <==>
            exists k :: Standing(log, k, id)
    decreases |log|
  {
    if log != [] {
      var n := |log| - 1;
      var init := log[..n];
      if log[n].Restart? && InHand(init) != {} {
        LiveMeans(init[..n - 1], id);
        assert init[..n - 1] == log[..n - 1];
        Shifted(log, n - 1, id);
      } else {
        LiveMeans(init, id);
        Shifted(log, n, id);
      }
    }
  }

  lemma Shifted(log: seq<Event>, n: nat, id: string)
    requires n < |log|
    requires (n == |log| - 1 && !(log[n].Restart? && InHand(log[..n]) != {}))
             || (n == |log| - 2 && log[n].Register? && log[n + 1].Restart?)
    ensures (exists k :: Standing(log, k, id)) <==>
            (n == |log| - 1 && id in Gained(log[n])) || ((exists k :: Standing(log[..n], k, id)) && !Ends(log[n], id))
  {
    var init := log[..n];
    if k: nat :| Standing(log, k, id) {
      if k < n {
        assert Standing(init, k, id);
      }
    }
    if k: nat :| Standing(init, k, id) && !Ends(log[n], id) {
      assert init[k] == log[k];
      if k + 1 < n { assert init[k + 1] == log[k + 1]; }
      assert k == n - 1 ==> id in InHand(init);
      assert Standing(log, k, id);
    }
    if n == |log| - 1 && id in Gained(log[n]) {
      assert Standing(log, n, id);
    }
  }

  // ---- Accounts -------------------------------------------------------------------------------

  ghost predicate Dropped(log: seq<Event>, k: nat) {
    k < |log| && log[k].Clear? && (log[k].forgotten || Live(log[..k]) == {})
  }

  // Between bindings of two accounts everything was unregistered or the first account was
  // given up, and a quarantined binding is left in no other way.
  lemma {:induction false} SwitchNeedsDrop(log: seq<Event>, i: nat, j: nat)
    requires Good(log) && i <= j <= |log| && SavedAt(log[..i]).Some? && SavedAt(log[..j]).Some?
    requires var b, d := SavedAt(log[..i]).value, SavedAt(log[..j]).value;
             b.account != d.account || (b.phase.PendingUnbind? && b != d)
    ensures exists k :: i <= k < j && Dropped(log, k)
    decreases j
  {
    assert i != j;
    var n := j - 1;
    assert log[..j][..n] == log[..n];
    Prefix(log, j);
    if log[n].Clear? {
      assert Dropped(log, n);
    } else if SavedAt(log[..n]).Some? {
      SwitchNeedsDrop(log, i, n);
    } else {
      ClearedSince(log, i, n);
    }
  }

  lemma {:induction false} ClearedSince(log: seq<Event>, i: nat, j: nat)
    requires Good(log) && i <= j <= |log| && SavedAt(log[..i]).Some? && SavedAt(log[..j]).None?
    ensures exists k :: i <= k < j && Dropped(log, k)
    decreases j
  {
    assert i != j;
    var n := j - 1;
    assert log[..j][..n] == log[..n];
    Prefix(log, j);
    if log[n].Clear? {
      assert Dropped(log, n);
    } else {
      ClearedSince(log, i, n);
    }
  }

  // ---- Cleanup passes ------------------------------------------------------------------------

  // One pass over ids: a call each, in order.
  function Attempts(ids: seq<string>, replies: seq<Reply>): seq<Event>
    requires |ids| == |replies|
  {
    seq(|ids|, i requires 0 <= i < |ids| => Unregister(ids[i], replies[i]))
  }

  predicate Retires(reply: Reply, unknownIsGone: bool) {
    reply.Ok? || (unknownIsGone && reply.NotFound?)
  }

  // The ids a pass could not retire, in order.
  function Left(ids: seq<string>, replies: seq<Reply>, unknownIsGone: bool): seq<string>
    requires |ids| == |replies|
  {
    if ids == [] then []
    else
      var n := |ids| - 1;
      Left(ids[..n], replies[..n], unknownIsGone) + (if Retires(replies[n], unknownIsGone) then [] else [ids[n]])
  }

  lemma {:induction false} LeftFacts(ids: seq<string>, replies: seq<Reply>, unknownIsGone: bool)
    requires |ids| == |replies| && SortedIds(ids)
    ensures SortedIds(Left(ids, replies, unknownIsGone))
    ensures forall x :: x in Left(ids, replies, unknownIsGone) ==> x in ids
    ensures forall i :: 0 <= i < |ids| ==>
              (ids[i] in Left(ids, replies, unknownIsGone) <==> !Retires(replies[i], unknownIsGone))
  {
    if ids != [] {
      var n := |ids| - 1;
      LeftFacts(ids[..n], replies[..n], unknownIsGone);
      var rest := Left(ids[..n], replies[..n], unknownIsGone);
      var all := Left(ids, replies, unknownIsGone);
      LessStrictTotal();
      forall x | x in rest ensures Less(x, ids[n]) {
        assert x in ids[..n];
        var i :| 0 <= i < n && ids[..n][i] == x;
        assert ids[i] == x;
      }
      forall i | 0 <= i < |ids| ensures ids[i] in all <==> !Retires(replies[i], unknownIsGone) {
        if i < n { assert ids[..n][i] == ids[i]; }
      }
      assert forall x :: x in all ==> x in rest || x == ids[n];
    }
  }

  lemma AttemptsSnoc(ids: seq<string>, replies: seq<Reply>, reply: Reply, unknownIsGone: bool)
    requires |replies| < |ids|
    ensures var i := |replies|;
            && Attempts(ids[..i + 1], replies + [reply]) == Attempts(ids[..i], replies) + [Unregister(ids[i], reply)]
            && Left(ids[..i + 1], replies + [reply], unknownIsGone)
               == Left(ids[..i], replies, unknownIsGone) + (if Retires(reply, unknownIsGone) then [] else [ids[i]])
  {
    var i := |replies|;
    assert ids[..i + 1][..i] == ids[..i] && (replies + [reply])[..i] == replies;
    assert Attempts(ids[..i + 1], replies + [reply]) == Attempts(ids[..i], replies) + [Unregister(ids[i], reply)];
  }

  function Without(xs: seq<string>, x: string): (r: seq<string>)
    ensures forall y :: y in r <==> y in xs && y != x
  {
    if xs == [] then []
    else
      var n := |xs| - 1;
      Without(xs[..n], x) + (if xs[n] == x then [] else [xs[n]])
  }

  // Nothing was asked of the backend but to unregister.
  ghost predicate OnlyCleans(events: seq<Event>) {
    forall e :: e in events ==> e.Unregister? || e.Save?
  }

  lemma NothingCleans()
    ensures OnlyCleans([])
  {
  }

  lemma SaveCleans(b: Binding)
    ensures OnlyCleans([Event.Save(b)])
  {
  }

  lemma AttemptsOnlyClean(ids: seq<string>, replies: seq<Reply>, tail: seq<Event>)
    requires |ids| == |replies| && OnlyCleans(tail)
    ensures OnlyCleans(Attempts(ids, replies) + tail)
  {
  }

  // Nothing was registered, unless the backend did not know the current id.
  ghost predicate RegistersOnlyIfGone(events: seq<Event>, current: string) {
    forall e :: e in events && e.Register? ==> Event.Heartbeat(current, NotFound) in events
  }

  lemma CleaningRegistersNothing(events: seq<Event>, more: seq<Event>, current: string)
    requires OnlyCleans(events)
    requires Event.Heartbeat(current, NotFound) in more || forall e :: e in more ==> !e.Register?
    ensures RegistersOnlyIfGone(events + more, current)
  {
  }

  // How an operation keeps the ids it found: each is still saved, was retired, or is proven
  // gone.
  ghost predicate KeepsTrack(events: seq<Event>, before: set<string>, after: set<string>, unknownIsGone: bool) {
    forall id :: id in before ==>
      id in after || Unregister(id, Ok) in events || Event.Heartbeat(id, NotFound) in events
      || (unknownIsGone && Unregister(id, NotFound) in events)
  }

  lemma TrackTwice(first: seq<Event>, second: seq<Event>, a: set<string>, b: set<string>, c: set<string>,
                   unknownIsGone: bool)
    requires KeepsTrack(first, a, b, unknownIsGone) && KeepsTrack(second, b, c, unknownIsGone)
    ensures KeepsTrack(first + second, a, c, unknownIsGone)
  {
  }

  lemma UnchangedTracks(events: seq<Event>, ids: set<string>, unknownIsGone: bool)
    ensures KeepsTrack(events, ids, ids, unknownIsGone)
  {
  }

  lemma NoAttempts(ids: seq<string>, unknownIsGone: bool)
    ensures Attempts(ids[..0], []) == [] && Left(ids[..0], [], unknownIsGone) == []
  {
  }

  lemma CleanupTracks(b: Binding, replies: seq<Reply>, tail: seq<Event>, unknownIsGone: bool)
    requires |replies| == |b.pending| && SortedIds(b.pending)
    ensures KeepsTrack(Attempts(b.pending, replies) + tail, Ids(Some(b)),
                       Ids(Some(b.(pending := Left(b.pending, replies, unknownIsGone)))), unknownIsGone)
  {
    var events := Attempts(b.pending, replies) + tail;
    LeftFacts(b.pending, replies, unknownIsGone);
    forall i | 0 <= i < |b.pending| ensures Unregister(b.pending[i], replies[i]) in events {
      assert events[i] == Unregister(b.pending[i], replies[i]);
    }
  }

  // ---- The device -------------------------------------------------------------------------------

  // The persisted binding and the backend as one device meets them; replies are arbitrary.
  class Device {
    var saved: Option<Binding>
    var log: seq<Event>

    ghost predicate Valid()
      reads this
    {
      Good(log) && saved == SavedAt(log)
    }

    // Nothing is registered that is not saved.
    ghost predicate Settled()
      reads this
    {
      Valid() && Live(log) <= Ids(saved)
    }

    constructor ()
      ensures saved == None && log == [] && Settled()
    {
      saved, log := None, [];
    }

    // The device after a crash at any point of an earlier life.
    constructor Restarted(before: seq<Event>)
      requires Good(before)
      ensures saved == SavedAt(before) && log == before + [Restart] && Settled()
    {
      saved, log := SavedAt(before), before + [Restart];
      Snoc(before, Restart);
    }

    method Register(target: DeviceTarget) returns (id: Option<string>)
      requires Settled()
      modifies this`log
      ensures Valid() && log == old(log) + [Event.Register(target, id)]
      ensures Live(log) == old(Live(log)) + (if id.Some? && !Blank(id.value) then {id.value} else {})
    {
      id := *;
      Snoc(log, Event.Register(target, id));
      log := log + [Event.Register(target, id)];
    }

    method Heartbeat(id: string) returns (reply: Reply)
      requires Settled()
      modifies this`log
      ensures Settled() && log == old(log) + [Event.Heartbeat(id, reply)]
      ensures Live(log) == if reply.NotFound? then old(Live(log)) - {id} else old(Live(log))
    {
      reply := *;
      Snoc(log, Event.Heartbeat(id, reply));
      log := log + [Event.Heartbeat(id, reply)];
    }

    method Unregister(id: string) returns (reply: Reply)
      requires Settled()
      modifies this`log
      ensures Settled() && log == old(log) + [Event.Unregister(id, reply)]
      ensures Live(log) == if reply.Ok? || reply.NotFound? then old(Live(log)) - {id} else old(Live(log))
    {
      reply := *;
      Snoc(log, Event.Unregister(id, reply));
      log := log + [Event.Unregister(id, reply)];
    }

    method Save(b: Binding)
      requires Valid() && Lawful(saved, Live(log), Event.Save(b))
      modifies this
      ensures Settled() && saved == Some(b) && log == old(log) + [Event.Save(b)] && Live(log) == old(Live(log))
    {
      Snoc(log, Event.Save(b));
      saved, log := Some(b), log + [Event.Save(b)];
    }

    method Clear(forgotten: bool)
      requires Valid() && Lawful(saved, Live(log), Event.Clear(forgotten))
      modifies this
      ensures Settled() && saved == None && log == old(log) + [Event.Clear(forgotten)] && Live(log) == {}
    {
      Snoc(log, Event.Clear(forgotten));
      saved, log := None, log + [Event.Clear(forgotten)];
    }
  }
}
