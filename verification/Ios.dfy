/** The iOS installation lifecycle: bind, heartbeat, unbind and quarantine against an
    unreliable backend. Every operation runs under the operation lock. */
module Ios {
  import opened Push
  import opened Ordering
  import opened ClientLog

  datatype Registration = Registration(target: DeviceTarget, metadata: Metadata)

  datatype HeartbeatRequest = HeartbeatRequest(permission: Option<string>, timezone: Option<string>,
                                               enabled: Option<bool>)

  datatype LifecycleError = BelongsToAnotherUser | IsPendingUnbind | UserMismatch | TransportFailed

  datatype BindResult = IsBound(binding: Binding) | BindFailed(error: LifecycleError)

  // NoReceipt: nothing is bound or its metadata is unknown; Answered: the backend's own receipt.
  datatype BeatResult = NoReceipt | Answered | Receipt(id: string) | BeatFailed(error: LifecycleError)

  function Updated(m: Metadata, h: HeartbeatRequest): Metadata {
    Metadata(m.platform, if h.permission.Some? then h.permission.value else m.permission,
             if h.timezone.Some? then h.timezone.value else m.timezone,
             if h.enabled.Some? then h.enabled.value else m.enabled)
  }

  // A request that names nothing new.
  predicate UnchangedBy(m: Metadata, h: HeartbeatRequest) {
    && (h.permission.Some? ==> h.permission.value == m.permission)
    && (h.timezone.Some? ==> h.timezone.value == m.timezone)
    && (h.enabled.Some? ==> h.enabled.value == m.enabled)
  }

  predicate Recent(lastSeen: Option<int>, now: int, interval: int) {
    lastSeen.Some? && now - lastSeen.value < interval
  }

  lemma DueIs(b: Binding, now: int, interval: int)
    ensures HeartbeatIsDue(b, now, interval) <==> !Recent(b.lastSeen, now, interval)
  {
  }

  predicate HeartbeatIsDue(b: Binding, now: int, interval: int) {
    b.lastSeen.None? || now - b.lastSeen.value >= interval
  }

  // The number of registrations among events.
  function Registrations(events: seq<Event>): nat {
    if events == [] then 0
    else Registrations(events[..|events| - 1]) + (if events[|events| - 1].Register? then 1 else 0)
  }

  lemma {:induction false} RegistrationsConcat(a: seq<Event>, b: seq<Event>)
    ensures Registrations(a + b) == Registrations(a) + Registrations(b)
  {
    if b == [] {
      assert a + b == a;
    } else {
      assert (a + b)[..|a + b| - 1] == a + b[..|b| - 1];
      RegistrationsConcat(a, b[..|b| - 1]);
    }
  }

  lemma {:induction false} AttemptsRegisterNothing(ids: seq<string>, replies: seq<Reply>)
    requires |ids| == |replies|
    ensures Registrations(Attempts(ids, replies)) == 0
  {
    if ids != [] {
      var n := |ids| - 1;
      assert Attempts(ids, replies)[..n] == Attempts(ids[..n], replies[..n]);
      AttemptsRegisterNothing(ids[..n], replies[..n]);
    }
  }

  class Lifecycle {
    const device: Device
    const heartbeatInterval: int

    constructor (device: Device, heartbeatInterval: int)
      ensures this.device == device && this.heartbeatInterval == heartbeatInterval
    {
      this.device, this.heartbeatInterval := device, heartbeatInterval;
    }

    // A missing installation counts as unregistered.
    method CleanupStale(binding: Binding)
      returns (cleaned: Binding, ghost replies: seq<Reply>, ghost events: seq<Event>)
      requires device.Settled() && device.saved == Some(binding) && binding.phase.Bound?
      modifies device
      ensures device.Settled() && device.saved == Some(cleaned) && device.log == old(device.log) + events
      ensures |replies| == |binding.pending| && cleaned == binding.(pending := Left(binding.pending, replies, true))
      ensures events == Attempts(binding.pending, replies) + (if cleaned == binding then [] else [Event.Save(cleaned)])
      ensures KeepsTrack(events, Ids(Some(binding)), Ids(Some(cleaned)), true) && Registrations(events) == 0
      ensures cleaned == binding.(pending := cleaned.pending) && SortedIds(cleaned.pending) && OnlyCleans(events)
      ensures forall i :: 0 <= i < |binding.pending| ==>
                (binding.pending[i] in cleaned.pending <==> replies[i] != Ok && replies[i] != NotFound)
    {
      hide Good, SavedAt, Live, Attempts, Left, KeepsTrack, Registrations, OnlyCleans;
      replies, events := [], [];
      SavedIsTidy(device.log);
      var remaining: seq<string> := [];
      NoAttempts(binding.pending, true);
      for i := 0 to |binding.pending|
        invariant device.Settled() && device.saved == Some(binding) && |replies| == i
        invariant remaining == Left(binding.pending[..i], replies, true)
                  && events == Attempts(binding.pending[..i], replies)
        invariant device.log == old(device.log) + events
        invariant forall j :: 0 <= j < i && Retires(replies[j], true) ==> binding.pending[j] !in Live(device.log)
      {
        var reply := device.Unregister(binding.pending[i]);
        AttemptsSnoc(binding.pending, replies, reply, true);
        replies, events := replies + [reply], events + [Unregister(binding.pending[i], reply)];
        if !reply.Ok? && !reply.NotFound? {
          remaining := remaining + [binding.pending[i]];
        }
      }
      assert binding.pending[..|binding.pending|] == binding.pending;
      LeftFacts(binding.pending, replies, true);
      AttemptsRegisterNothing(binding.pending, replies);
      if remaining == binding.pending {
        CleanupTracks(binding, replies, [], true);
        assert events == events + [];
        NothingCleans();
        AttemptsOnlyClean(binding.pending, replies, []);
        return binding, replies, events;
      }
      cleaned := binding.(pending := remaining);
      CleanupTracks(binding, replies, [Event.Save(cleaned)], true);
      device.Save(cleaned);
      SavesRegisterNothing(events, cleaned);
      SaveCleans(cleaned);
      AttemptsOnlyClean(binding.pending, replies, [Event.Save(cleaned)]);
      events := events + [Event.Save(cleaned)];
    }

    // Registers, saves the new binding and retires what it replaces.
    method Rebind(user: string, request: Registration, now: int) returns (r: BindResult, ghost events: seq<Event>)
      requires device.Settled()
      requires device.saved.Some? ==> device.saved.value.account == user && device.saved.value.phase.Bound?
      modifies device
      ensures device.Settled() && device.log == old(device.log) + events
      ensures r.BindFailed? ==> r.error == TransportFailed && device.saved == old(device.saved)
      ensures r.IsBound? ==>
                && device.saved == Some(r.binding) && r.binding.account == user && r.binding.target == request.target
                && r.binding.metadata == Some(request.metadata) && r.binding.lastSeen == Some(now)
                && r.binding.phase.Bound?
                && [Event.Register(request.target, Some(r.binding.current))] <= events
      ensures KeepsTrack(events, Ids(old(device.saved)), Ids(device.saved), true) && Registrations(events) == 1
    {
      hide Good, SavedAt, Live, Attempts, Left, KeepsTrack, Lawful, Tidy, Ids, Registrations, Without;
      var existing := device.saved;
      var id := device.Register(request.target);
      ghost var call := Event.Register(request.target, id);
      OneRegistration(call);
      if id.None? {
        UnchangedTracks([call], Ids(existing), true);
        return BindFailed(TransportFailed), [call];
      }
      var pendingCleanup := if existing.Some? then existing.value.pending else [];
      if existing.Some? && existing.value.current != id.value {
        pendingCleanup := pendingCleanup + [existing.value.current];
      }
      var pending := SortedDistinct(Without(pendingCleanup, id.value));
      var binding := Binding(user, id.value, request.target, Some(request.metadata), Some(now), Phase.Bound, pending);
      NamesAll(existing, Live(device.log), pendingCleanup, binding, call);
      device.Save(binding);
      ghost var replies, more;
      var cleaned;
      cleaned, replies, more := CleanupStale(binding);
      events := [call, Event.Save(binding)] + more;
      TrackTwice([call, Event.Save(binding)], more, Ids(existing), Ids(Some(binding)), Ids(Some(cleaned)), true);
      OneRegistrationIn(call, binding, more);
      r := IsBound(cleaned);
    }

    // nested counts the calls bind made of itself; first is its first clock reading, now the last.
    method BindUserLocked(user: string, request: Registration, forced: bool)
      returns (r: BindResult, ghost events: seq<Event>, ghost now: int, ghost nested: nat, ghost first: int)
      requires device.Settled()
      modifies device
      ensures device.Settled() && device.log == old(device.log) + events
      ensures r == BindFailed(BelongsToAnotherUser) <==>
                old(device.saved).Some? && old(device.saved).value.account != user
      ensures r == BindFailed(IsPendingUnbind) <==>
                old(device.saved).Some? && old(device.saved).value.account == user
                && old(device.saved).value.phase.PendingUnbind?
      ensures r == BindFailed(BelongsToAnotherUser) || r == BindFailed(IsPendingUnbind) ==>
                events == [] && device.saved == old(device.saved)
      ensures r.BindFailed? && r.error != BelongsToAnotherUser && r.error != IsPendingUnbind ==>
                r.error == TransportFailed
      ensures device.saved == old(device.saved) || (device.saved.Some? && device.saved.value.account == user)
      ensures r.IsBound? ==>
                && device.saved == Some(r.binding) && r.binding.account == user && r.binding.target == request.target
                && r.binding.metadata == Some(request.metadata) && r.binding.phase.Bound?
                && (r.binding.lastSeen == Some(now)
                    || (!forced && old(device.saved).Some? && r.binding.lastSeen == old(device.saved).value.lastSeen
                        && r.binding.lastSeen.Some? && now - r.binding.lastSeen.value < heartbeatInterval))
      // An unchanged binding that was seen recently causes no call but cleanup, and one that
      // was not is registered again only when the backend does not know it.
      ensures (!forced && old(device.saved).Some? && old(device.saved).value.target == request.target
               && old(device.saved).value.metadata == Some(request.metadata)) ==>
                && RegistersOnlyIfGone(events, old(device.saved).value.current)
                && (Recent(old(device.saved).value.lastSeen, first, heartbeatInterval) ==> OnlyCleans(events))
      ensures r.IsBound? && (forced || old(device.saved).None? || old(device.saved).value.target != request.target) ==>
                [Event.Register(request.target, Some(r.binding.current))] <= events
      ensures KeepsTrack(events, Ids(old(device.saved)), Ids(device.saved), true)
      ensures nested <= 1 && (forced ==> nested == 0) && Registrations(events) <= 1
      decreases !forced
    {
      hide Good, SavedAt, Live, Attempts, Left, KeepsTrack, Lawful, Tidy, Ids, Registrations, OnlyCleans,
           RegistersOnlyIfGone, HeartbeatIsDue;
      events, now, nested, first := [], 0, 0, 0;
      NothingCleans();
      var existing := device.saved;
      if existing.Some? { CleaningRegistersNothing(events, events, existing.value.current); }
      assert events + events == events;
      UnchangedTracks([], Ids(existing), true);
      NoRegistrations();
      if existing.Some? && existing.value.account != user {
        return BindFailed(BelongsToAnotherUser), [], 0, 0, 0;
      }
      if existing.Some? && !existing.value.phase.Bound? {
        return BindFailed(IsPendingUnbind), [], 0, 0, 0;
      }
      var timestamp: int := *;
      now, first := timestamp, timestamp;
      if existing.Some? && !forced && existing.value.target == request.target
         && existing.value.metadata == Some(request.metadata) {
        var cleaned;
        ghost var replies;
        cleaned, replies, events := CleanupStale(existing.value);
        ghost var cleaning := events;
        DueIs(cleaned, timestamp, heartbeatInterval);
        CleaningRegistersNothing(cleaning, [], cleaned.current);
        assert cleaning + [] == cleaning;
        if !HeartbeatIsDue(cleaned, timestamp, heartbeatInterval) {
          return IsBound(cleaned), events, now, 0, first;
        }
        var reply := device.Heartbeat(cleaned.current);
        ghost var call := Event.Heartbeat(cleaned.current, reply);
        Called(events, call, Ids(existing), Ids(Some(cleaned)));
        events := events + [call];
        if reply.NotFound? {
          ghost var more;
          ghost var before := events;
          ghost var again;
          r, more, now, nested, again := BindUserLocked(user, request, true);
          TrackTwice(before, more, Ids(existing), Ids(Some(cleaned)), Ids(device.saved), true);
          RegistrationsConcat(before, more);
          events, nested := before + more, 1;
          assert before + more == cleaning + ([call] + more) && ([call] + more)[0] == call;
          CleaningRegistersNothing(cleaning, [call] + more, cleaned.current);
          return;
        }
        CleaningRegistersNothing(cleaning, [call], cleaned.current);
        if !reply.Ok? {
          return BindFailed(TransportFailed), events, now, 0, first;
        }
        var refreshed := cleaned.(metadata := Some(request.metadata), lastSeen := Some(timestamp));
        Refreshes(device.log, cleaned, refreshed);
        device.Save(refreshed);
        Called(events, Event.Save(refreshed), Ids(existing), Ids(Some(cleaned)));
        assert events + [Event.Save(refreshed)] == cleaning + [call, Event.Save(refreshed)];
        CleaningRegistersNothing(cleaning, [call, Event.Save(refreshed)], cleaned.current);
        return IsBound(refreshed), events + [Event.Save(refreshed)], now, 0, first;
      }
      r, events := Rebind(user, request, timestamp);
    }

    method HeartbeatLocked(user: string, request: HeartbeatRequest, force: bool)
      returns (r: BeatResult, ghost events: seq<Event>, ghost now: int, ghost first: int)
      requires device.Settled()
      modifies device
      ensures device.Settled() && device.log == old(device.log) + events
      // Nothing to report since a recent heartbeat: no call but cleanup.
      ensures (!force && old(device.saved).Some? && old(device.saved).value.metadata.Some?
               && UnchangedBy(old(device.saved).value.metadata.value, request)
               && Recent(old(device.saved).value.lastSeen, first, heartbeatInterval)) ==> OnlyCleans(events)
      ensures r == BeatFailed(UserMismatch) <==> old(device.saved).Some? && old(device.saved).value.account != user
      ensures r == BeatFailed(IsPendingUnbind) <==>
                old(device.saved).Some? && old(device.saved).value.account == user
                && old(device.saved).value.phase.PendingUnbind?
      ensures r == BeatFailed(UserMismatch) || r == BeatFailed(IsPendingUnbind) ==>
                events == [] && device.saved == old(device.saved)
      ensures old(device.saved).None? ==> r.NoReceipt? && events == []
      ensures r.NoReceipt? ==> old(device.saved).None? || old(device.saved).value.metadata.None?
      ensures r.Answered? || r.Receipt? ==>
                && old(device.saved).Some? && old(device.saved).value.metadata.Some?
                && device.saved.Some? && device.saved.value.account == user && device.saved.value.phase.Bound?
                && device.saved.value.target == old(device.saved).value.target
                && device.saved.value.metadata ==
                   Some(old(device.saved).value.metadata.value.(
                          permission := if request.permission.Some? then request.permission.value
                                        else old(device.saved).value.metadata.value.permission,
                          timezone := if request.timezone.Some? then request.timezone.value
                                      else old(device.saved).value.metadata.value.timezone,
                          enabled := if request.enabled.Some? then request.enabled.value
                                     else old(device.saved).value.metadata.value.enabled))
                && (r.Receipt? ==> r.id == device.saved.value.current)
                && (device.saved.value.lastSeen == Some(now)
                    || (!force && device.saved.value.lastSeen == old(device.saved).value.lastSeen
                        && Recent(device.saved.value.lastSeen, now, heartbeatInterval)))
      ensures old(device.saved).Some? <==> device.saved.Some?
      ensures KeepsTrack(events, Ids(old(device.saved)), Ids(device.saved), true) && Registrations(events) <= 1
    {
      hide Good, SavedAt, Live, Attempts, Left, KeepsTrack, Lawful, Tidy, Ids, Registrations, HeartbeatIsDue,
           OnlyCleans;
      events, now, first := [], 0, 0;
      NothingCleans();
      NoRegistrations();
      UnchangedTracks([], Ids(device.saved), true);
      if device.saved.None? {
        return NoReceipt, [], 0, 0;
      }
      var binding := device.saved.value;
      if binding.account != user {
        return BeatFailed(UserMismatch), [], 0, 0;
      }
      if !binding.phase.Bound? {
        return BeatFailed(IsPendingUnbind), [], 0, 0;
      }
      var cleaned;
      ghost var replies;
      cleaned, replies, events := CleanupStale(binding);
      if cleaned.metadata.None? {
        return NoReceipt, events, 0, 0;
      }
      var replacement := Updated(cleaned.metadata.value, request);
      if replacement != cleaned.metadata.value {
        ghost var more;
        r, more, now := BindAgain(user, Registration(cleaned.target, replacement));
        TrackTwice(events, more, Ids(Some(binding)), Ids(Some(cleaned)), Ids(device.saved), true);
        RegistrationsConcat(events, more);
        events := events + more;
        return;
      }
      var timestamp: int := *;
      now, first := timestamp, timestamp;
      DueIs(cleaned, timestamp, heartbeatInterval);
      if !force && !HeartbeatIsDue(cleaned, timestamp, heartbeatInterval) {
        return Receipt(cleaned.current), events, now, first;
      }
      var reply := device.Heartbeat(cleaned.current);
      ghost var call := Event.Heartbeat(cleaned.current, reply);
      Called(events, call, Ids(Some(binding)), Ids(Some(cleaned)));
      events := events + [call];
      if reply.NotFound? {
        ghost var more;
        r, more, now := BindAgain(user, Registration(cleaned.target, replacement));
        TrackTwice(events, more, Ids(Some(binding)), Ids(Some(cleaned)), Ids(device.saved), true);
        RegistrationsConcat(events, more);
        events := events + more;
        return;
      }
      if !reply.Ok? {
        return BeatFailed(TransportFailed), events, now, first;
      }
      var refreshed := cleaned.(metadata := Some(replacement), lastSeen := Some(timestamp));
      Refreshes(device.log, cleaned, refreshed);
      device.Save(refreshed);
      Called(events, Event.Save(refreshed), Ids(Some(binding)), Ids(Some(cleaned)));
      return Answered, events + [Event.Save(refreshed)], now, first;
    }

    // A forced bind for the current user, answered as a heartbeat.
    method BindAgain(user: string, request: Registration)
      returns (r: BeatResult, ghost events: seq<Event>, ghost now: int)
      requires device.Settled() && device.saved.Some? && device.saved.value.account == user
               && device.saved.value.phase.Bound?
      modifies device
      ensures device.Settled() && device.log == old(device.log) + events && device.saved.Some?
      ensures r.Receipt? || r == BeatFailed(TransportFailed)
      ensures r.Receipt? ==>
                var b := device.saved.value;
                && r.id == b.current && b.account == user && b.phase.Bound? && b.target == request.target
                && b.metadata == Some(request.metadata) && b.lastSeen == Some(now)
      ensures KeepsTrack(events, Ids(old(device.saved)), Ids(device.saved), true) && Registrations(events) <= 1
    {
      hide Good, SavedAt, Live, KeepsTrack, Ids, Registrations, HeartbeatIsDue;
      var rebound;
      ghost var nested, first;
      rebound, events, now, nested, first := BindUserLocked(user, request, true);
      r := if rebound.IsBound? then Receipt(rebound.binding.current) else BeatFailed(rebound.error);
    }

    method UnbindUserLocked(user: string) returns (error: Option<LifecycleError>, ghost events: seq<Event>)
      requires device.Settled()
      modifies device
      ensures device.Settled() && device.log == old(device.log) + events
      ensures error == Some(UserMismatch) <==> old(device.saved).Some? && old(device.saved).value.account != user
      ensures error == Some(UserMismatch) || old(device.saved).None? ==>
                events == [] && device.saved == old(device.saved)
      ensures error.None? ==>
                && device.saved.None? && Live(device.log) == {}
                && forall id :: id in Ids(old(device.saved)) ==>
                     Unregister(id, Ok) in events || Unregister(id, NotFound) in events
      ensures error.Some? && error != Some(UserMismatch) ==>
                && error == Some(TransportFailed) && old(device.saved).Some?
                && device.saved == Some(old(device.saved).value.(phase := Phase.PendingUnbind))
    {
      hide Good, SavedAt, Live, Tidy;
      events := [];
      if device.saved.None? {
        return None, [];
      }
      var binding := device.saved.value;
      if binding.account != user {
        return Some(UserMismatch), [];
      }
      var pending := binding.(phase := Phase.PendingUnbind);
      Refreshes(device.log, binding, pending);
      device.Save(pending);
      events := [Event.Save(pending)];
      var reply := device.Unregister(binding.current);
      events := events + [Unregister(binding.current, reply)];
      if !reply.Ok? && !reply.NotFound? {
        return Some(TransportFailed), events;
      }
      for i := 0 to |binding.pending|
        invariant device.Settled() && device.saved == Some(pending) && device.log == old(device.log) + events
        invariant binding.current !in Live(device.log)
        invariant Unregister(binding.current, Ok) in events || Unregister(binding.current, NotFound) in events
        invariant forall j :: 0 <= j < i ==> binding.pending[j] !in Live(device.log)
        invariant forall j :: 0 <= j < i ==>
                    Unregister(binding.pending[j], Ok) in events || Unregister(binding.pending[j], NotFound) in events
      {
        reply := device.Unregister(binding.pending[i]);
        events := events + [Unregister(binding.pending[i], reply)];
        if !reply.Ok? && !reply.NotFound? {
          return Some(TransportFailed), events;
        }
      }
      assert Live(device.log) == {};
      device.Clear(false);
      events := events + [Event.Clear(false)];
      error := None;
    }

    method MarkPendingUnbindLocked(user: string) returns (error: Option<LifecycleError>)
      requires device.Settled()
      modifies device
      ensures device.Settled()
      ensures error == if old(device.saved).Some? && old(device.saved).value.account != user
                       then Some(UserMismatch) else None
      ensures device.saved == if error.Some? || old(device.saved).None? then old(device.saved)
                              else Some(old(device.saved).value.(phase := Phase.PendingUnbind))
      ensures device.log == old(device.log)
                            + (if error.Some? || old(device.saved).None? then [] else [Event.Save(device.saved.value)])
    {
      hide Good, SavedAt, Live, Tidy;
      if device.saved.None? {
        return None;
      }
      if device.saved.value.account != user {
        return Some(UserMismatch);
      }
      var pending := device.saved.value.(phase := Phase.PendingUnbind);
      Refreshes(device.log, device.saved.value, pending);
      device.Save(pending);
      error := None;
    }

    // Only for a deleted account, or a binding the backend has invalidated.
    method ForgetBinding(user: string) returns (error: Option<LifecycleError>)
      requires device.Settled()
      modifies device
      ensures device.Settled()
      ensures error == if old(device.saved).Some? && old(device.saved).value.account != user
                       then Some(UserMismatch) else None
      ensures device.saved == if error.Some? then old(device.saved) else None
      ensures device.log == old(device.log)
                            + (if error.Some? || old(device.saved).None? then [] else [Event.Clear(true)])
    {
      hide Good, SavedAt, Live, Tidy;
      if device.saved.None? {
        return None;
      }
      if device.saved.value.account != user {
        return Some(UserMismatch);
      }
      device.Clear(true);
      error := None;
    }
  }

  datatype Operation =
    | DoBind(user: string, request: Registration, forced: bool)
    | DoHeartbeat(user: string, beat: HeartbeatRequest, forced: bool)
    | DoUnbind(user: string)
    | DoMarkPendingUnbind(user: string)
    | DoForget(user: string)

  // Any life of a device: operations in any order, each completed or, when crashed gives a
  // number, cut off after that many of its events, with a restart.
  method AnyLife(operations: seq<Operation>, crashed: nat -> Option<nat>, heartbeatInterval: int)
    returns (device: Device)
    ensures fresh(device) && device.Settled()
    ensures Good(device.log) && Tracked(device.log)
  {
    hide Good, SavedAt, Live, Tracked;
    device := new Device();
    var lifecycle := new Lifecycle(device, heartbeatInterval);
    for i := 0 to |operations|
      invariant fresh(device) && fresh(lifecycle) && lifecycle.device == device && device.Settled()
    {
      var before := |device.log|;
      match operations[i] {
        case DoBind(user, request, forced) =>
          var _, _, _, _, _ := lifecycle.BindUserLocked(user, request, forced);
        case DoHeartbeat(user, beat, forced) =>
          var _, _, _, _ := lifecycle.HeartbeatLocked(user, beat, forced);
        case DoUnbind(user) =>
          var _, _ := lifecycle.UnbindUserLocked(user);
        case DoMarkPendingUnbind(user) =>
          var _ := lifecycle.MarkPendingUnbindLocked(user);
        case DoForget(user) =>
          var _ := lifecycle.ForgetBinding(user);
      }
      if crashed(i).Some? && before + crashed(i).value <= |device.log| {
        var point := before + crashed(i).value;
        Prefix(device.log, point);
        device := new Device.Restarted(device.log[..point]);
        lifecycle := new Lifecycle(device, heartbeatInterval);
      }
    }
    GoodIsTracked(device.log);
  }

  lemma NoRegistrations()
    ensures Registrations([]) == 0
  {
  }

  lemma SavesRegisterNothing(events: seq<Event>, b: Binding)
    requires Registrations(events) == 0
    ensures Registrations(events + [Event.Save(b)]) == 0
  {
  }

  lemma OneRegistration(call: Event)
    requires call.Register?
    ensures Registrations([call]) == 1
  {
  }

  lemma OneRegistrationIn(call: Event, b: Binding, more: seq<Event>)
    requires call.Register? && Registrations(more) == 0
    ensures Registrations([call, Event.Save(b)] + more) == 1
  {
    OneRegistration(call);
    assert [call, Event.Save(b)][..1] == [call];
    RegistrationsConcat([call, Event.Save(b)], more);
  }

  // One more call or save that registers nothing.
  lemma Called(events: seq<Event>, e: Event, before: set<string>, after: set<string>)
    requires KeepsTrack(events, before, after, true) && !e.Register?
    ensures KeepsTrack(events + [e], before, after, true) && Registrations(events + [e]) == Registrations(events)
  {
  }

  // A save that changes no id, account or target is lawful when everything is settled.
  lemma Refreshes(log: seq<Event>, b: Binding, c: Binding)
    requires Good(log) && SavedAt(log) == Some(b) && Live(log) <= Ids(Some(b))
    requires c == b.(metadata := c.metadata, lastSeen := c.lastSeen, phase := c.phase)
    requires b.phase.PendingUnbind? ==> c == b
    ensures Lawful(Some(b), Live(log), Event.Save(c)) && Ids(Some(c)) == Ids(Some(b))
  {
  }

  // The binding of a newly registered id names everything the one before named.
  lemma NamesAll(existing: Option<Binding>, live: set<string>, stale: seq<string>, b: Binding, call: Event)
    requires existing.Some? ==> b.account == existing.value.account && existing.value.phase.Bound?
    requires stale == if existing.None? then []
                      else existing.value.pending
                           + (if existing.value.current != b.current then [existing.value.current] else [])
    requires b.pending == Listing(Elements(Without(stale, b.current)))
    requires live <= Ids(existing) + {b.current}
    ensures Lawful(existing, live, Event.Save(b))
    ensures KeepsTrack([call, Event.Save(b)], Ids(existing), Ids(Some(b)), true)
  {
    assert forall x :: x in b.pending <==> x in Elements(b.pending);
    forall x | x in Ids(existing) ensures x in Ids(Some(b)) {
      if x != b.current { assert x in stale; }
    }
  }
}
