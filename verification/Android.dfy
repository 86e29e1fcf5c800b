/** The Android installation manager: bind, unbind and cleanup against an unreliable backend. */
module Android {
  import opened Push
  import opened Ordering
  import opened ClientLog

  datatype BindResult = IsBound(binding: Binding) | BlankAccount | OtherAccount | NoTarget | BlankId | BackendFailed

  // first is the reply that is rethrown.
  datatype UnbindResult = Unbound | NotThisAccount | Interrupted | Rethrown(first: Reply)

  // Android always saves a complete binding.
  predicate Complete(b: Binding) {
    b.lastSeen.Some? && b.metadata.Some? && b.phase.Bound?
  }

  ghost predicate Whole(log: seq<Event>) {
    forall b :: Event.Save(b) in log ==> Complete(b)
  }

  lemma WholeSaved(log: seq<Event>)
    requires Good(log) && Whole(log) && SavedAt(log).Some?
    ensures Complete(SavedAt(log).value) && Tidy(SavedAt(log).value)
  {
  }

  class Manager {
    const device: Device
    const heartbeatInterval: int

    ghost predicate Valid()
      reads this, device
    {
      device.Settled() && Whole(device.log)
    }

    constructor (device: Device, heartbeatInterval: int)
      requires device.Settled() && Whole(device.log)
      ensures Valid() && this.device == device && this.heartbeatInterval == heartbeatInterval
    {
      this.device, this.heartbeatInterval := device, heartbeatInterval;
    }

    // Every waiting id gets one call; the ones that fail keep waiting. None: cancelled.
    method CleanupPending(state: Binding)
      returns (cleaned: Option<Binding>, ghost replies: seq<Reply>, ghost events: seq<Event>)
      requires Valid() && device.saved == Some(state)
      modifies device
      ensures Valid() && |replies| <= |state.pending| && device.log == old(device.log) + events
      ensures cleaned.Some? ==>
                && |replies| == |state.pending| && Cancelled !in replies && device.saved == cleaned
                && cleaned.value == state.(pending := Left(state.pending, replies, false))
                && events == Attempts(state.pending, replies)
                             + (if cleaned.value == state then [] else [Event.Save(cleaned.value)])
      ensures cleaned.Some? ==>
                && cleaned.value == state.(pending := cleaned.value.pending) && SortedIds(cleaned.value.pending)
                && forall i :: 0 <= i < |state.pending| ==>
                     (state.pending[i] in cleaned.value.pending <==> replies[i] != Ok)
      ensures cleaned.None? ==>
                && replies != [] && replies[|replies| - 1] == Cancelled && device.saved == old(device.saved)
                && events == Attempts(state.pending[..|replies|], replies)
      ensures KeepsTrack(events, Ids(Some(state)), Ids(device.saved), false) && OnlyCleans(events)
    {
      hide Good, SavedAt, Live, Attempts, Left, Whole, KeepsTrack, OnlyCleans;
      replies, events := [], [];
      NothingCleans();
      WholeSaved(device.log);
      var remaining: seq<string> := [];
      NoAttempts(state.pending, false);
      for i := 0 to |state.pending|
        invariant Valid() && device.saved == Some(state) && |replies| == i && Cancelled !in replies
        invariant remaining == Left(state.pending[..i], replies, false)
                  && events == Attempts(state.pending[..i], replies)
        invariant device.log == old(device.log) + events
        invariant forall j :: 0 <= j < i && replies[j].Ok? ==> state.pending[j] !in Live(device.log)
      {
        var reply := device.Unregister(state.pending[i]);
        AttemptsSnoc(state.pending, replies, reply, false);
        OneCallWhole(old(device.log) + events, Unregister(state.pending[i], reply));
        replies, events := replies + [reply], events + [Unregister(state.pending[i], reply)];
        if reply.Cancelled? {
          UnchangedTracks(events, Ids(Some(state)), false);
          OnlyCleansCalls(state.pending[..i + 1], replies, events);
          return None, replies, events;
        }
        if !reply.Ok? {
          remaining := remaining + [state.pending[i]];
        }
      }
      assert state.pending[..|state.pending|] == state.pending;
      LeftFacts(state.pending, replies, false);
      remaining := SortedDistinct(remaining);
      SortedIdsUnique(remaining, Left(state.pending, replies, false));
      if remaining == state.pending {
        CleanupTracks(state, replies, [], false);
        assert events == events + [];
        OnlyCleansCalls(state.pending, replies, events);
        return Some(state), replies, events;
      }
      var next := state.(pending := remaining);
      CleanupTracks(state, replies, [Event.Save(next)], false);
      OneCallWhole(device.log, Event.Save(next));
      SaveCleans(next);
      AttemptsOnlyClean(state.pending, replies, [Event.Save(next)]);
      device.Save(next);
      cleaned, events := Some(next), events + [Event.Save(next)];
    }

    // Save a binding for the id just registered, then retire what it replaces.
    method SaveAndClean(replacement: Binding) returns (cleaned: Option<Binding>, ghost events: seq<Event>)
      requires device.Valid() && Whole(device.log) && Complete(replacement)
      requires Lawful(device.saved, Live(device.log), Event.Save(replacement))
      modifies device
      ensures Valid() && device.log == old(device.log) + events && [Event.Save(replacement)] <= events
      ensures device.saved.Some? && device.saved.value == replacement.(pending := device.saved.value.pending)
      ensures cleaned.Some? ==> device.saved == cleaned
      ensures KeepsTrack(events, Ids(Some(replacement)), Ids(device.saved), false)
    {
      hide Good, SavedAt, Live, Attempts, Left, Whole, KeepsTrack, Lawful, Complete;
      OneCallWhole(device.log, Event.Save(replacement));
      device.Save(replacement);
      ghost var replies, more;
      cleaned, replies, more := CleanupPending(replacement);
      events := [Event.Save(replacement)] + more;
      UnchangedTracks([Event.Save(replacement)], Ids(Some(replacement)), false);
      TrackTwice([Event.Save(replacement)], more, Ids(Some(replacement)), Ids(Some(replacement)), Ids(device.saved),
                 false);
    }

    // A new or changed target is registered before anything else is given up.
    method Replace(account: string, target: DeviceTarget, metadata: Metadata, now: int)
      returns (r: BindResult, ghost events: seq<Event>)
      requires Valid() && (device.saved.Some? ==> device.saved.value.account == account)
      modifies device
      ensures Valid() && device.log == old(device.log) + events
      ensures r.IsBound? || r.BlankId? || r.BackendFailed?
      ensures device.saved == old(device.saved) || (device.saved.Some? && device.saved.value.account == account)
      ensures r.IsBound? ==>
                && device.saved == Some(r.binding) && r.binding.account == account && r.binding.target == target
                && r.binding.metadata == Some(metadata) && r.binding.lastSeen == Some(now)
                && [Event.Register(target, Some(r.binding.current))] <= events
      ensures KeepsTrack(events, Ids(old(device.saved)), Ids(device.saved), false)
    {
      hide Good, SavedAt, Live, Attempts, Left, Whole, KeepsTrack, Lawful, Tidy, Ids, Distinct, Without;
      var current := device.saved;
      if current.Some? { WholeSaved(device.log); }
      var id := device.Register(target);
      OneCallWhole(old(device.log), Event.Register(target, id));
      ghost var call := Event.Register(target, id);
      UnchangedTracks([call], Ids(current), false);
      if id.None? {
        return BackendFailed, [call];
      }
      if Blank(id.value) {
        return BlankId, [call];
      }
      var stale := if current.Some? then
                     (if current.value.current != id.value then [current.value.current] else []) + current.value.pending
                   else [];
      var pending := SortedDistinct(Without(Distinct(stale), id.value));
      var replacement := Binding(account, id.value, target, Some(metadata), Some(now), Phase.Bound, pending);
      ReplacesAll(current, Live(device.log), stale, replacement);
      var cleaned, more := SaveAndClean(replacement);
      events := [call] + more;
      GrownTracks([call], current, replacement);
      TrackTwice([call], more, Ids(current), Ids(Some(replacement)), Ids(device.saved), false);
      r := if cleaned.None? then BackendFailed else IsBound(cleaned.value);
    }

    // A heartbeat the backend answers with not found proves the current id gone.
    method Recover(state: Binding, metadata: Metadata, now: int) returns (r: BindResult, ghost events: seq<Event>)
      requires Valid() && device.saved == Some(state) && state.current !in Live(device.log)
      modifies device
      ensures Valid() && device.log == old(device.log) + events
      ensures r.IsBound? || r.BlankId? || r.BackendFailed?
      ensures device.saved.Some? && device.saved.value.account == state.account
      ensures r.IsBound? ==>
                && device.saved == Some(r.binding) && r.binding.target == state.target
                && r.binding.metadata == Some(metadata) && r.binding.lastSeen == Some(now)
      ensures KeepsTrack([Event.Heartbeat(state.current, NotFound)] + events,
                         Ids(old(device.saved)), Ids(device.saved), false)
    {
      hide Good, SavedAt, Live, Attempts, Left, Whole, KeepsTrack, Lawful, Tidy, Distinct, Without;
      ghost var gone := Event.Heartbeat(state.current, NotFound);
      WholeSaved(device.log);
      var id := device.Register(state.target);
      ghost var call := Event.Register(state.target, id);
      OneCallWhole(old(device.log), call);
      UnchangedTracks([gone, call], Ids(Some(state)), false);
      assert [gone, call] == [gone] + [call];
      if id.None? {
        return BackendFailed, [call];
      }
      if Blank(id.value) {
        return BlankId, [call];
      }
      var pending := SortedDistinct(Distinct(Without(state.pending, id.value)));
      var replacement := state.(current := id.value, metadata := Some(metadata), lastSeen := Some(now),
                                pending := pending);
      RecoversAll(state, Live(device.log), replacement);
      var cleaned, more := SaveAndClean(replacement);
      events := [call] + more;
      TrackTwice([gone, call], more, Ids(Some(state)), Ids(Some(replacement)), Ids(device.saved), false);
      assert [gone, call] + more == [gone] + events;
      r := if cleaned.None? then BackendFailed else IsBound(cleaned.value);
    }

    method Refresh(current: Binding, metadata: Metadata, now: int, force: bool)
      returns (r: BindResult, ghost events: seq<Event>)
      requires Valid() && device.saved == Some(current)
      modifies device
      ensures Valid() && device.log == old(device.log) + events
      ensures r.IsBound? || r.BlankId? || r.BackendFailed?
      ensures device.saved.Some? && device.saved.value.account == current.account
      ensures r.IsBound? ==>
                && device.saved == Some(r.binding) && r.binding.target == current.target
                && r.binding.metadata == Some(metadata)
                && (r.binding.lastSeen == Some(now)
                    || (!force && r.binding.lastSeen == current.lastSeen
                        && Recent(current.lastSeen, now, heartbeatInterval)))
                && (r.binding.current != current.current ==> Event.Heartbeat(current.current, NotFound) in events)
      // Without a reason there is no heartbeat, and without a missing installation no new one.
      ensures (!force && current.metadata == Some(metadata) && current.lastSeen.Some?
               && now - current.lastSeen.value < heartbeatInterval) ==> OnlyCleans(events)
      ensures RegistersOnlyIfGone(events, current.current)
      ensures KeepsTrack(events, Ids(Some(current)), Ids(device.saved), false)
    {
      hide Good, SavedAt, Live, Attempts, Left, Whole, KeepsTrack, OnlyCleans, RegistersOnlyIfGone;
      WholeSaved(device.log);
      var cleaned;
      ghost var replies;
      cleaned, replies, events := CleanupPending(current);
      ghost var cleaning := events;
      CleaningRegistersNothing(cleaning, [], current.current);
      assert cleaning + [] == cleaning;
      if cleaned.None? {
        return BackendFailed, events;
      }
      var state := cleaned.value;
      if force || now - state.lastSeen.value >= heartbeatInterval || current.metadata != Some(metadata) {
        ghost var before := device.log;
        var reply := device.Heartbeat(state.current);
        ghost var call := Event.Heartbeat(state.current, reply);
        OneCallWhole(before, call);
        UnchangedTracks([call], Ids(Some(state)), false);
        TrackTwice(events, [call], Ids(Some(current)), Ids(Some(state)), Ids(Some(state)), false);
        if reply.NotFound? {
          ghost var more;
          r, more := Recover(state, metadata, now);
          TrackTwice(events, [call] + more, Ids(Some(current)), Ids(Some(state)), Ids(device.saved), false);
          events := events + ([call] + more);
          assert ([call] + more)[0] == Event.Heartbeat(current.current, NotFound);
          CleaningRegistersNothing(cleaning, [call] + more, current.current);
          return;
        }
        CleaningRegistersNothing(cleaning, [call], current.current);
        if !reply.Ok? {
          return BackendFailed, events + [call];
        }
        var refreshed := state.(metadata := Some(metadata), lastSeen := Some(now));
        WholeSaved(device.log);
        OneCallWhole(device.log, Event.Save(refreshed));
        device.Save(refreshed);
        CleaningRegistersNothing(cleaning, [call, Event.Save(refreshed)], current.current);
        UnchangedTracks([call, Event.Save(refreshed)], Ids(Some(state)), false);
        TrackTwice(events, [call, Event.Save(refreshed)], Ids(Some(current)), Ids(Some(state)), Ids(Some(refreshed)),
                   false);
        return IsBound(refreshed), events + [call, Event.Save(refreshed)];
      }
      r := IsBound(state);
    }

    // offered is the provider's target, None when the provider fails.
    method Bind(account: string, offered: Option<DeviceTarget>, metadata: Metadata, now: int, force: bool)
      returns (r: BindResult, ghost events: seq<Event>)
      requires Valid()
      modifies device
      ensures Valid() && device.log == old(device.log) + events
      ensures r.BlankAccount? <==> Blank(account)
      ensures r.OtherAccount? <==>
                !Blank(account) && old(device.saved).Some? && old(device.saved).value.account != account
      ensures r.NoTarget? <==> !r.BlankAccount? && !r.OtherAccount? && offered.None?
      ensures r.BlankAccount? || r.OtherAccount? || r.NoTarget? ==> events == [] && device.saved == old(device.saved)
      ensures device.saved == old(device.saved) || (device.saved.Some? && device.saved.value.account == account)
      ensures r.IsBound? ==>
                && device.saved == Some(r.binding) && offered.Some? && r.binding.account == account
                && r.binding.target == offered.value && r.binding.metadata == Some(metadata)
                && (r.binding.lastSeen == Some(now)
                    || (!force && old(device.saved).Some? && r.binding.lastSeen == old(device.saved).value.lastSeen
                        && r.binding.lastSeen.Some? && now - r.binding.lastSeen.value < heartbeatInterval))
      ensures r.IsBound? && !(old(device.saved).Some? && old(device.saved).value.target == offered.value) ==>
                [Event.Register(offered.value, Some(r.binding.current))] <= events
      ensures r.IsBound? && old(device.saved).Some? && old(device.saved).value.target == offered.value ==>
                r.binding.current == old(device.saved).value.current
                || Event.Heartbeat(old(device.saved).value.current, NotFound) in events
      ensures offered.Some? && old(device.saved).Some? && old(device.saved).value.target == offered.value ==>
                && RegistersOnlyIfGone(events, old(device.saved).value.current)
                && ((!force && old(device.saved).value.metadata == Some(metadata)
                     && old(device.saved).value.lastSeen.Some?
                     && now - old(device.saved).value.lastSeen.value < heartbeatInterval) ==> OnlyCleans(events))
      ensures KeepsTrack(events, Ids(old(device.saved)), Ids(device.saved), false)
    {
      hide Good, SavedAt, Live, Whole;
      events := [];
      if Blank(account) {
        return BlankAccount, [];
      }
      var current := device.saved;
      if current.Some? && current.value.account != account {
        return OtherAccount, [];
      }
      if offered.None? {
        return NoTarget, [];
      }
      if current.Some? && current.value.target == offered.value {
        r, events := Refresh(current.value, metadata, now, force);
      } else {
        r, events := Replace(account, offered.value, metadata, now);
      }
    }

    // The binding stays until every saved id is retired; a failing call does not stop the pass.
    method Unbind(account: string) returns (r: UnbindResult, ghost events: seq<Event>, ghost replies: seq<Reply>)
      requires Valid()
      modifies device
      ensures Valid() && device.log == old(device.log) + events
      ensures old(device.saved).None? ==> r.Unbound? && events == []
      ensures r.NotThisAccount? <==> old(device.saved).Some? && old(device.saved).value.account != account
      ensures r.NotThisAccount? ==> events == []
      ensures r.Unbound? ==>
                && device.saved.None? && Live(device.log) == {}
                && forall id :: id in Ids(old(device.saved)) ==> Unregister(id, Ok) in events
      ensures !r.Unbound? ==> device.saved == old(device.saved)
      ensures r.Rethrown? ==>
                exists i :: 0 <= i < |replies| && replies[i] == r.first && r.first != Ok
                            && forall j :: 0 <= j < i ==> replies[j] == Ok
      ensures r.Rethrown? || r.Interrupted? ==>
                var all := [old(device.saved).value.current] + old(device.saved).value.pending;
                && |replies| <= |all| && events == Attempts(all[..|replies|], replies)
                && (r.Rethrown? ==>
                      |replies| == |all| && Cancelled !in replies && FirstFailure(replies) == Some(r.first))
                && (r.Interrupted? ==> replies != [] && replies[|replies| - 1] == Cancelled)
    {
      hide Good, SavedAt, Live, Attempts, Left, Whole, Distinct, Tidy;
      events, replies := [], [];
      var current := device.saved;
      if current.None? {
        return Unbound, [], [];
      }
      if current.value.account != account {
        return NotThisAccount, [], [];
      }
      WholeSaved(device.log);
      var all := [current.value.current] + current.value.pending;
      var ids := Distinct(all);
      TidyDistinct(current.value);
      var firstFailure: Option<Reply> := None;
      NoAttempts(all, false);
      for i := 0 to |ids|
        invariant Valid() && device.saved == current && |replies| == i && Cancelled !in replies
        invariant events == Attempts(all[..i], replies) && device.log == old(device.log) + events
        invariant firstFailure == FirstFailure(replies)
        invariant forall j :: 0 <= j < i && replies[j].Ok? ==>
                    all[j] !in Live(device.log) && Unregister(all[j], Ok) in events
      {
        var reply := device.Unregister(ids[i]);
        AttemptsSnoc(all, replies, reply, false);
        OneCallWhole(old(device.log) + events, Unregister(ids[i], reply));
        assert (replies + [reply])[..i] == replies;
        replies, events := replies + [reply], events + [Unregister(ids[i], reply)];
        if reply.Cancelled? {
          return Interrupted, events, replies;
        }
        if !reply.Ok? && firstFailure.None? {
          firstFailure := Some(reply);
        }
      }
      assert all[..|all|] == all;
      if firstFailure.Some? {
        var i := FirstPlace(replies);
        return Rethrown(firstFailure.value), events, replies;
      }
      NoFailure(replies);
      forall id | id in Ids(current) ensures id !in Live(device.log) && Unregister(id, Ok) in events {
        assert id in all;
        var j :| 0 <= j < |all| && all[j] == id;
        assert replies[j].Ok?;
      }
      OneCallWhole(device.log, Event.Clear(false));
      device.Clear(false);
      events := events + [Event.Clear(false)];
      r := Unbound;
    }

    // Only after the account itself was deleted on the server.
    method ClearDeletedAccount(account: string) returns (r: Option<bool>, ghost events: seq<Event>)
      requires Valid()
      modifies device
      ensures Valid() && device.log == old(device.log) + events
      ensures r.None? <==> Blank(account)
      ensures r == Some(false) <==>
                !Blank(account) && old(device.saved).Some? && old(device.saved).value.account != account
      ensures r == Some(true) ==> device.saved.None?
      ensures events == if r == Some(true) && old(device.saved).Some? then [Event.Clear(true)] else []
      ensures r != Some(true) ==> device.saved == old(device.saved)
    {
      hide Good, SavedAt, Live, Whole;
      events := [];
      if Blank(account) {
        return None, [];
      }
      if device.saved.None? {
        return Some(true), [];
      }
      if device.saved.value.account != account {
        return Some(false), [];
      }
      OneCallWhole(device.log, Event.Clear(true));
      device.Clear(true);
      return Some(true), [Event.Clear(true)];
    }
  }

  datatype Operation =
    | DoBind(account: string, offered: Option<DeviceTarget>, metadata: Metadata, now: int, force: bool)
    | DoUnbind(account: string)
    | DoClear(account: string)

  // Any life of a device: operations in any order, each completed or, when crashed gives a
  // number, cut off after that many of its events, with a restart.
  method AnyLife(operations: seq<Operation>, crashed: nat -> Option<nat>, heartbeatInterval: int)
    returns (device: Device)
    ensures fresh(device) && device.Settled() && Whole(device.log)
    ensures Good(device.log) && Tracked(device.log)
  {
    hide Good, SavedAt, Live, Whole, Tracked;
    device := new Device();
    NothingWhole();
    var manager := new Manager(device, heartbeatInterval);
    for i := 0 to |operations|
      invariant fresh(device) && fresh(manager) && manager.device == device && manager.Valid()
    {
      var before := |device.log|;
      match operations[i] {
        case DoBind(account, offered, metadata, now, force) =>
          var _, _ := manager.Bind(account, offered, metadata, now, force);
        case DoUnbind(account) =>
          var _, _, _ := manager.Unbind(account);
        case DoClear(account) =>
          var _, _ := manager.ClearDeletedAccount(account);
      }
      if crashed(i).Some? && before + crashed(i).value <= |device.log| {
        var point := before + crashed(i).value;
        Prefix(device.log, point);
        WholePrefix(device.log, point);
        device := new Device.Restarted(device.log[..point]);
        manager := new Manager(device, heartbeatInterval);
      }
    }
    GoodIsTracked(device.log);
  }

  lemma OnlyCleansCalls(ids: seq<string>, replies: seq<Reply>, events: seq<Event>)
    requires |ids| == |replies| && events == Attempts(ids, replies)
    ensures OnlyCleans(events)
  {
  }

  lemma NothingWhole()
    ensures Whole([])
  {
  }

  lemma WholePrefix(log: seq<Event>, k: nat)
    requires Whole(log) && k <= |log|
    ensures Whole(log[..k] + [Restart])
  {
  }

  predicate Recent(lastSeen: Option<int>, now: int, interval: int) {
    lastSeen.Some? && now - lastSeen.value < interval
  }

  function FirstFailure(replies: seq<Reply>): Option<Reply> {
    if replies == [] then None
    else
      var before := FirstFailure(replies[..|replies| - 1]);
      var last := replies[|replies| - 1];
      if before.None? && !last.Ok? then Some(last) else before
  }

  lemma {:induction false} FirstPlace(replies: seq<Reply>) returns (i: nat)
    requires FirstFailure(replies).Some?
    ensures i < |replies| && FirstFailure(replies) == Some(replies[i]) && replies[i] != Ok
    ensures forall j :: 0 <= j < i ==> replies[j] == Ok
  {
    var n := |replies| - 1;
    if FirstFailure(replies[..n]).Some? {
      i := FirstPlace(replies[..n]);
    } else {
      NoFailure(replies[..n]);
      i := n;
    }
  }

  lemma {:induction false} NoFailure(replies: seq<Reply>)
    requires FirstFailure(replies).None?
    ensures forall i :: 0 <= i < |replies| ==> replies[i].Ok?
  {
    if replies != [] {
      NoFailure(replies[..|replies| - 1]);
    }
  }

  lemma TidyDistinct(b: Binding)
    requires Tidy(b)
    ensures Distinct([b.current] + b.pending) == [b.current] + b.pending
  {
    var all := [b.current] + b.pending;
    LessStrictTotal();
    forall i, j | 0 <= i < j < |all| ensures all[i] != all[j] {
      assert all[j] == b.pending[j - 1];
      if i > 0 { assert all[i] == b.pending[i - 1]; }
    }
  }

  lemma ReplacementIds(stale: seq<string>, b: Binding)
    requires b.pending == Listing(Elements(stale)) && b.current !in stale
    ensures Tidy(b) && Ids(Some(b)) == {b.current} + Elements(stale)
    ensures forall x :: x in b.pending <==> x in stale
  {
    assert forall x :: x in b.pending <==> x in Elements(b.pending);
  }

  lemma GrownTracks(events: seq<Event>, current: Option<Binding>, b: Binding)
    requires Ids(current) <= Ids(Some(b))
    ensures KeepsTrack(events, Ids(current), Ids(Some(b)), false)
  {
  }

  // The binding of a newly registered id names everything the one before named.
  lemma ReplacesAll(current: Option<Binding>, live: set<string>, stale: seq<string>, b: Binding)
    requires current.Some? ==> b.account == current.value.account && current.value.phase.Bound?
    requires stale == if current.None? then []
                      else (if current.value.current != b.current then [current.value.current] else [])
                           + current.value.pending
    requires b.pending == Listing(Elements(Without(Distinct(stale), b.current)))
    requires live <= Ids(current) + {b.current}
    ensures Ids(current) <= Ids(Some(b)) && Lawful(current, live, Event.Save(b))
  {
    ReplacementIds(Without(Distinct(stale), b.current), b);
    forall x | x in Ids(current) ensures x in Ids(Some(b)) {
      if x != b.current { assert x in stale; }
    }
  }

  // The same after a heartbeat that proved the current id gone.
  lemma RecoversAll(state: Binding, live: set<string>, b: Binding)
    requires b.account == state.account && state.phase.Bound?
             && live <= (Ids(Some(state)) - {state.current}) + {b.current}
    requires b.pending == Listing(Elements(Distinct(Without(state.pending, b.current))))
    ensures Lawful(Some(state), live, Event.Save(b))
    ensures KeepsTrack([Event.Heartbeat(state.current, NotFound), Event.Register(state.target, Some(b.current))],
                       Ids(Some(state)), Ids(Some(b)), false)
  {
    ReplacementIds(Distinct(Without(state.pending, b.current)), b);
    assert [Event.Heartbeat(state.current, NotFound), Event.Register(state.target, Some(b.current))][0]
             == Event.Heartbeat(state.current, NotFound);
  }

  lemma OneCallWhole(log: seq<Event>, e: Event)
    requires Whole(log) && (e.Save? ==> Complete(e.binding))
    ensures Whole(log + [e])
  {
  }
}
