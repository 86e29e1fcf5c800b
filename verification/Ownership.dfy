/** The installation store: per-user maps and one owner record per target. Each Firestore
    transaction is one step; a failed transaction changes nothing. */
module Ownership {
  import opened Push
  import opened Ordering
  import opened Installations

  datatype StoreError = InstallationNotFound | UserNotFound | AccountDeletionFenced

  // status is None when the configured field is missing or not a string.
  datatype Config = Config(createUsers: bool, fenceConfigured: bool, statusField: bool,
                           blockedStatuses: map<string, bool>)

  datatype State = State(users: map<string, InstallationMap>, owners: map<string, string>,
                         requests: map<string, Option<string>>)

  datatype Reply = Reply(state: State, err: Option<StoreError>)

  datatype Heartbeat = Heartbeat(permission: Option<Permission>, timezone: Option<string>, enabled: Option<bool>,
                                 seenAt: int)

  // ---- Transactions as functions of the state ---------------------------------------

  function DeleteStatusBlocked(status: Option<string>, configured: map<string, bool>): bool {
    if status.None? then true
    else if status.value in configured then configured[status.value] else true
  }

  function Fenced(c: Config, s: State, uid: string): bool {
    c.fenceConfigured && uid in s.requests
    && (|c.blockedStatuses| == 0 || (c.statusField && DeleteStatusBlocked(s.requests[uid], c.blockedStatuses)))
  }

  // Owner records of removed entries go only when they still name this user.
  function WithoutOwned(owners: map<string, string>, removed: set<string>, uid: string): map<string, string> {
    map id | id in owners && !(id in removed && owners[id] == uid) :: owners[id]
  }

  function StoredFor(s: State, uid: string): InstallationMap {
    if uid in s.users then s.users[uid] else map[]
  }

  function RetireIn(m: InstallationMap, ids: set<string>, at: int): InstallationMap {
    map id | id in m :: if id in ids then m[id].Retired(at) else m[id]
  }

  function Registered(m: InstallationMap, id: string, installation: Installation): Installation {
    if id in m then PreserveRegistrationState(m[id], installation) else installation
  }

  // now is read only when the installation carries no update time.
  function Stamped(installation: Installation, now: int): Installation {
    var i := if installation.updatedAt == 0 then installation.(updatedAt := now) else installation;
    if i.createdAt == 0 then i.(createdAt := i.updatedAt) else i
  }

  ghost function Upsert(c: Config, s: State, uid: string, id: string, installation: Installation, now: int): Reply {
    if Fenced(c, s, uid) then Reply(s, Some(AccountDeletionFenced))
    else if uid !in s.users && !c.createUsers then Reply(s, Some(UserNotFound))
    else
      var i := Registered(StoredFor(s, uid), id, Stamped(installation, now));
      var before := StoredFor(s, uid)[id := i];
      var after := Pruned(before, id, i.updatedAt);
      var prior := if id in s.owners then s.owners[id] else "";
      var users := if prior != "" && prior != uid && prior in s.users
                   then s.users[prior := RetireIn(s.users[prior], {id}, i.updatedAt)] else s.users;
      Reply(s.(users := users[uid := after],
               owners := WithoutOwned(s.owners[id := uid], before.Keys - after.Keys, uid)), None)
  }

  function Refreshed(i: Installation, h: Heartbeat): Installation {
    var a := if h.permission.Some? then i.(permission := h.permission.value) else i;
    var b := if h.timezone.Some? then a.(timezone := h.timezone.value) else a;
    var c := if h.enabled.None? then b
             else b.(enabled := h.enabled.value, disabledAt := if h.enabled.value then 0 else h.seenAt);
    c.(lastSeenAt := h.seenAt, updatedAt := h.seenAt)
  }

  ghost function Beat(s: State, uid: string, id: string, h: Heartbeat): Reply {
    if !Live(s, uid, id) then Reply(s, Some(InstallationNotFound))
    else
      var before := s.users[uid][id := Refreshed(s.users[uid][id], h)];
      var after := Pruned(before, id, h.seenAt);
      Reply(s.(users := s.users[uid := after], owners := WithoutOwned(s.owners, before.Keys - after.Keys, uid)), None)
  }

  function Disable(s: State, uid: string, ids: set<string>, at: int, requireMatch: bool): Reply {
    if uid !in s.users || s.users[uid].Keys * ids == {} then
      Reply(s, if requireMatch then Some(InstallationNotFound) else None)
    else Reply(s.(users := s.users[uid := RetireIn(s.users[uid], ids, at)]), None)
  }

  predicate NeedsMark(i: Installation, key: string, value: string) {
    i.Address() != "" && !(key in i.delivered && i.delivered[key] == value)
  }

  function MarkIn(m: InstallationMap, ids: set<string>, key: string, value: string): InstallationMap {
    map id | id in m ::
      if id in ids && NeedsMark(m[id], key, value) then m[id].(delivered := m[id].delivered[key := value]) else m[id]
  }

  function Mark(s: State, uid: string, ids: set<string>, key: string, value: string): State {
    if uid !in s.users then s else s.(users := s.users[uid := MarkIn(s.users[uid], ids, key, value)])
  }

  function DeleteOwner(s: State, uid: string, id: string): State {
    if id in s.owners && s.owners[id] == uid then s.(owners := s.owners - {id}) else s
  }

  // ---- The ownership invariant ----------------------------------------------------------

  predicate Live(s: State, uid: string, id: string) {
    uid in s.users && id in s.users[uid] && s.users[uid][id].Address() != ""
  }

  // Ids are digests of the target's type and address.
  type Digest = (TargetType, string) -> string

  ghost predicate LiveOwned(digest: Digest, s: State) {
    forall uid, id :: Live(s, uid, id) ==>
      id in s.owners && s.owners[id] == uid
      && id == digest(s.users[uid][id].targetType, s.users[uid][id].Address())
  }

  // No registration can make this user's document.
  predicate Barred(c: Config, s: State, uid: string) {
    Fenced(c, s, uid) || !c.createUsers
  }

  // An owner record points at an entry, or at a user that is gone and cannot come back by
  // registering.
  ghost predicate Grounded(c: Config, s: State) {
    forall id :: id in s.owners ==>
      if s.owners[id] in s.users then id in s.users[s.owners[id]] else Barred(c, s, s.owners[id])
  }

  ghost predicate Capped(s: State) {
    forall uid :: uid in s.users ==> |s.users[uid]| <= MAX_INSTALLATIONS_PER_USER
  }

  ghost predicate Inv(digest: Digest, c: Config, s: State) {
    "" !in s.users && LiveOwned(digest, s) && Grounded(c, s) && Capped(s)
  }

  lemma PrunedFacts(m: InstallationMap, keep: string, now: int)
    requires keep in m
    ensures var p := Pruned(m, keep, now);
            keep in p && |p| <= MAX_INSTALLATIONS_PER_USER && p.Keys <= m.Keys
            && forall id :: id in p ==> p[id] == m[id]
  {
    PrunedSize(m, keep, now);
    PruneIsJustified(m, keep, now);
  }

  // The address of a registration decides its id.
  ghost predicate WellFormed(digest: Digest, uid: string, id: string, installation: Installation) {
    uid != "" && (installation.Address() != "" ==> id == digest(installation.targetType, installation.Address()))
  }

  lemma UpsertKeepsInv(digest: Digest, c: Config, s: State, uid: string, id: string, installation: Installation,
                       now: int)
    requires Inv(digest, c, s) && WellFormed(digest, uid, id, installation)
    ensures Inv(digest, c, Upsert(c, s, uid, id, installation, now).state)
  {
    hide Upsert, LiveOwned, Grounded, Capped;
    UpsertLiveOwned(digest, c, s, uid, id, installation, now);
    UpsertGrounded(c, s, uid, id, installation, now);
    UpsertCapped(c, s, uid, id, installation, now);
  }

  lemma UpsertLiveOwned(digest: Digest, c: Config, s: State, uid: string, id: string, installation: Installation,
                        now: int)
    requires "" !in s.users && LiveOwned(digest, s) && WellFormed(digest, uid, id, installation)
    ensures "" !in Upsert(c, s, uid, id, installation, now).state.users
    ensures LiveOwned(digest, Upsert(c, s, uid, id, installation, now).state)
  {
    hide Pruned, Installation.Address, Fenced, Registered, Stamped;
    var r := Upsert(c, s, uid, id, installation, now);
    if r.err.None? {
      var i := Registered(StoredFor(s, uid), id, Stamped(installation, now));
      AddressKept(StoredFor(s, uid), id, installation, now);
      var before := StoredFor(s, uid)[id := i];
      PrunedFacts(before, id, i.updatedAt);
      RetiredHasNoAddress();
      var s' := r.state;
      forall u, x | Live(s', u, x)
        ensures x in s'.owners && s'.owners[x] == u && x == digest(s'.users[u][x].targetType, s'.users[u][x].Address())
      {
        if u != uid || x != id { assert Live(s, u, x); }
      }
    }
  }

  lemma UpsertGrounded(c: Config, s: State, uid: string, id: string, installation: Installation, now: int)
    requires Grounded(c, s)
    ensures Grounded(c, Upsert(c, s, uid, id, installation, now).state)
  {
    hide Pruned, Fenced, Registered, Stamped;
    var r := Upsert(c, s, uid, id, installation, now);
    if r.err.None? {
      var i := Registered(StoredFor(s, uid), id, Stamped(installation, now));
      PrunedFacts(StoredFor(s, uid)[id := i], id, i.updatedAt);
      FenceReadsRequests(c, s, r.state);
    }
  }

  lemma FenceReadsRequests(c: Config, s: State, s': State)
    requires s.requests == s'.requests
    ensures forall uid :: Fenced(c, s, uid) == Fenced(c, s', uid)
  {
  }

  lemma UpsertCapped(c: Config, s: State, uid: string, id: string, installation: Installation, now: int)
    requires Capped(s)
    ensures Capped(Upsert(c, s, uid, id, installation, now).state)
  {
    hide Pruned, Fenced, Registered, Stamped, WithoutOwned;
    var r := Upsert(c, s, uid, id, installation, now);
    if r.err.None? {
      var i := Registered(StoredFor(s, uid), id, Stamped(installation, now));
      PrunedFacts(StoredFor(s, uid)[id := i], id, i.updatedAt);
      forall u | u in s.users ensures |RetireIn(s.users[u], {id}, i.updatedAt)| == |s.users[u]| {
        RetireInSize(s.users[u], {id}, i.updatedAt);
      }
    }
  }

  lemma RetireInSize(m: InstallationMap, ids: set<string>, at: int)
    ensures RetireIn(m, ids, at).Keys == m.Keys && |RetireIn(m, ids, at)| == |m|
  {
  }

  lemma AddressKept(m: InstallationMap, id: string, installation: Installation, now: int)
    ensures var i := Registered(m, id, Stamped(installation, now));
            i.Address() == installation.Address() && i.targetType == installation.targetType
  {
  }

  lemma RetiredHasNoAddress()
    ensures forall i: Installation, at: int :: i.Retired(at).Address() == ""
  {
  }

  lemma RefreshedAddress(i: Installation, h: Heartbeat)
    ensures Refreshed(i, h).Address() == i.Address() && Refreshed(i, h).targetType == i.targetType
  {
  }

  // A step that only changes entries in place, or drops entries with the records they own.
  lemma EntriesOnly(digest: Digest, c: Config, s: State, s': State)
    requires Inv(digest, c, s) && s'.requests == s.requests && s'.users.Keys == s.users.Keys
    requires forall u, x :: Live(s', u, x) ==>
               Live(s, u, x) && s'.users[u][x].Address() == s.users[u][x].Address()
               && s'.users[u][x].targetType == s.users[u][x].targetType
    requires forall u, x :: Live(s', u, x) && x in s.owners && s.owners[x] == u ==> x in s'.owners && s'.owners[x] == u
    requires forall x :: x in s'.owners ==> x in s.owners && s'.owners[x] == s.owners[x]
    requires forall x :: x in s'.owners && s'.owners[x] in s.users && x in s.users[s'.owners[x]] ==>
               x in s'.users[s'.owners[x]]
    requires Capped(s')
    ensures Inv(digest, c, s')
  {
  }

  lemma BeatKeepsInv(digest: Digest, c: Config, s: State, uid: string, id: string, h: Heartbeat)
    requires Inv(digest, c, s)
    ensures Inv(digest, c, Beat(s, uid, id, h).state)
  {
    hide Pruned, Installation.Address, Refreshed, LiveOwned, Grounded;
    if Live(s, uid, id) {
      var before := s.users[uid][id := Refreshed(s.users[uid][id], h)];
      RefreshedAddress(s.users[uid][id], h);
      PrunedFacts(before, id, h.seenAt);
      EntriesOnly(digest, c, s, Beat(s, uid, id, h).state);
    }
  }

  // Entries keep their address and type, or lose the address.
  ghost predicate InPlace(m: InstallationMap, m': InstallationMap) {
    m'.Keys == m.Keys
    && forall id :: id in m ==>
         m'[id].Address() == "" || (m'[id].Address() == m[id].Address() && m'[id].targetType == m[id].targetType)
  }

  lemma InPlaceKeepsInv(digest: Digest, c: Config, s: State, s': State)
    requires Inv(digest, c, s) && s' == s.(users := s'.users) && s'.users.Keys == s.users.Keys
    requires forall u :: u in s.users ==> InPlace(s.users[u], s'.users[u])
    ensures Inv(digest, c, s')
  {
    hide Installation.Address, Fenced;
    FenceReadsRequests(c, s, s');
    forall u | u in s'.users ensures |s'.users[u]| <= MAX_INSTALLATIONS_PER_USER {
      assert |s'.users[u].Keys| == |s.users[u].Keys|;
    }
    forall u, x | Live(s', u, x)
      ensures x in s'.owners && s'.owners[x] == u && x == digest(s'.users[u][x].targetType, s'.users[u][x].Address())
    {
      assert Live(s, u, x);
    }
  }

  lemma RetireInPlace(m: InstallationMap, ids: set<string>, at: int)
    ensures InPlace(m, RetireIn(m, ids, at)) && InPlace(m, m)
    ensures forall id :: id in m ==> (RetireIn(m, ids, at)[id].Address() != "" <==> m[id].Address() != "" && id !in ids)
  {
  }

  lemma MarkInPlace(m: InstallationMap, ids: set<string>, key: string, value: string)
    ensures InPlace(m, MarkIn(m, ids, key, value)) && InPlace(m, m)
  {
  }

  lemma DisableKeepsInv(digest: Digest, c: Config, s: State, uid: string, ids: set<string>, at: int, requireMatch: bool)
    requires Inv(digest, c, s)
    ensures Inv(digest, c, Disable(s, uid, ids, at, requireMatch).state)
  {
    hide InPlace, RetireIn, Inv;
    var s' := Disable(s, uid, ids, at, requireMatch).state;
    forall u | u in s.users ensures InPlace(s.users[u], s'.users[u]) {
      RetireInPlace(s.users[u], ids, at);
    }
    InPlaceKeepsInv(digest, c, s, s');
  }

  lemma MarkKeepsInv(digest: Digest, c: Config, s: State, uid: string, ids: set<string>, key: string, value: string)
    requires Inv(digest, c, s)
    ensures Inv(digest, c, Mark(s, uid, ids, key, value))
  {
    hide InPlace, MarkIn, Inv;
    var s' := Mark(s, uid, ids, key, value);
    forall u | u in s.users ensures InPlace(s.users[u], s'.users[u]) {
      MarkInPlace(s.users[u], ids, key, value);
    }
    InPlaceKeepsInv(digest, c, s, s');
  }

  // Deleting an owner record is safe exactly when its user holds no live address there.
  lemma DeleteOwnerExactly(digest: Digest, c: Config, s: State, uid: string, id: string)
    requires Inv(digest, c, s)
    ensures Inv(digest, c, DeleteOwner(s, uid, id)) <==> !Live(s, uid, id)
  {
    hide Installation.Address, Fenced;
    var s' := DeleteOwner(s, uid, id);
    FenceReadsRequests(c, s, s');
    if Live(s, uid, id) {
      assert Live(s', uid, id) && id !in s'.owners;
    } else {
      forall u, x | Live(s', u, x) ensures Live(s, u, x) && x in s'.owners && s'.owners[x] == u {
        assert Live(s, u, x);
      }
    }
  }

  // ---- Every run --------------------------------------------------------------------------------

  // The application makes user documents and deletes them, and files and withdraws deletion
  // requests; the store does the rest.
  datatype Step =
    | DoUpsert(uid: string, id: string, installation: Installation, now: int)
    | DoBeat(uid: string, id: string, heartbeat: Heartbeat)
    | DoDisable(uid: string, ids: set<string>, at: int, requireMatch: bool)
    | DoMark(uid: string, ids: set<string>, key: string, value: string)
    | CreateUser(uid: string)
    | RequestDeletion(uid: string, status: Option<string>)
    | WithdrawRequest(uid: string)
    | DeleteUser(uid: string)
    | DoDeleteOwner(uid: string, id: string)

  ghost predicate OwnsRecords(s: State, uid: string) {
    exists id :: id in s.owners && s.owners[id] == uid
  }

  // From the deletion of a document until the last owner record of its user is gone, the
  // user neither registers nor gets a document back; and owner records are deleted only of
  // entries that are gone or retired.
  ghost predicate Allowed(digest: Digest, c: Config, s: State, step: Step) {
    match step
    case DoUpsert(uid, id, installation, _) => WellFormed(digest, uid, id, installation)
    case CreateUser(uid) => uid != "" && (uid in s.users || !OwnsRecords(s, uid))
    case DeleteUser(uid) => OwnsRecords(s, uid) ==> Barred(c, s, uid)
    case RequestDeletion(uid, status) =>
      OwnsRecords(s, uid) && uid !in s.users ==> Barred(c, s.(requests := s.requests[uid := status]), uid)
    case WithdrawRequest(uid) =>
      OwnsRecords(s, uid) && uid !in s.users ==> Barred(c, s.(requests := s.requests - {uid}), uid)
    case DoDeleteOwner(uid, id) => !Live(s, uid, id)
    case _ => true
  }

  ghost function Apply(c: Config, s: State, step: Step): State {
    match step
    case DoUpsert(uid, id, installation, now) => Upsert(c, s, uid, id, installation, now).state
    case DoBeat(uid, id, h) => Beat(s, uid, id, h).state
    case DoDisable(uid, ids, at, requireMatch) => Disable(s, uid, ids, at, requireMatch).state
    case DoMark(uid, ids, key, value) => Mark(s, uid, ids, key, value)
    case CreateUser(uid) => if uid in s.users then s else s.(users := s.users[uid := map[]])
    case RequestDeletion(uid, status) => s.(requests := s.requests[uid := status])
    case WithdrawRequest(uid) => s.(requests := s.requests - {uid})
    case DeleteUser(uid) => s.(users := s.users - {uid})
    case DoDeleteOwner(uid, id) => DeleteOwner(s, uid, id)
  }

  ghost predicate Run(digest: Digest, c: Config, s: State, steps: seq<Step>)
    decreases steps
  {
    steps == [] || (Allowed(digest, c, s, steps[0]) && Run(digest, c, Apply(c, s, steps[0]), steps[1..]))
  }

  ghost function Exec(c: Config, s: State, steps: seq<Step>): State
    decreases steps
  {
    if steps == [] then s else Exec(c, Apply(c, s, steps[0]), steps[1..])
  }

  const EMPTY := State(map[], map[], map[])

  lemma StepKeepsInv(digest: Digest, c: Config, s: State, step: Step)
    requires Inv(digest, c, s) && Allowed(digest, c, s, step)
    ensures Inv(digest, c, Apply(c, s, step))
  {
    hide Upsert, Beat, Disable, Mark, DeleteOwner, Installation.Address, Fenced, Inv;
    match step
    case DoUpsert(uid, id, installation, now) => UpsertKeepsInv(digest, c, s, uid, id, installation, now);
    case DoBeat(uid, id, h) => BeatKeepsInv(digest, c, s, uid, id, h);
    case DoDisable(uid, ids, at, requireMatch) => DisableKeepsInv(digest, c, s, uid, ids, at, requireMatch);
    case DoMark(uid, ids, key, value) => MarkKeepsInv(digest, c, s, uid, ids, key, value);
    case _ => AdministrationExactly(digest, c, s, step);
  }

  predicate Administers(step: Step) {
    step.CreateUser? || step.RequestDeletion? || step.WithdrawRequest? || step.DeleteUser? || step.DoDeleteOwner?
  }

  // What the application does around the store keeps the invariant exactly when it is allowed.
  lemma AdministrationExactly(digest: Digest, c: Config, s: State, step: Step)
    requires Inv(digest, c, s) && Administers(step) && (step.CreateUser? ==> step.uid != "")
    ensures Inv(digest, c, Apply(c, s, step)) <==> Allowed(digest, c, s, step)
  {
    hide Inv, DeleteOwner, Installation.Address;
    match step
    case CreateUser(uid) => if uid !in s.users { CreateUserExactly(digest, c, s, uid); }
    case RequestDeletion(uid, status) => RequestsExactly(digest, c, s, s.(requests := s.requests[uid := status]), uid);
    case WithdrawRequest(uid) => RequestsExactly(digest, c, s, s.(requests := s.requests - {uid}), uid);
    case DeleteUser(uid) => DeleteUserExactly(digest, c, s, uid);
    case DoDeleteOwner(uid, id) => DeleteOwnerExactly(digest, c, s, uid, id);
  }

  lemma CreateUserExactly(digest: Digest, c: Config, s: State, uid: string)
    requires Inv(digest, c, s) && uid != "" && uid !in s.users
    ensures Inv(digest, c, s.(users := s.users[uid := map[]])) <==> !OwnsRecords(s, uid)
  {
    hide Installation.Address, Fenced;
    var s' := s.(users := s.users[uid := map[]]);
    FenceReadsRequests(c, s, s');
    forall u, x ensures Live(s', u, x) == Live(s, u, x) {}
    if id :| id in s.owners && s.owners[id] == uid {
      assert id !in s'.users[uid];
    }
  }

  // A change of one user's deletion request.
  lemma RequestsExactly(digest: Digest, c: Config, s: State, s': State, uid: string)
    requires Inv(digest, c, s) && s' == s.(requests := s'.requests)
    requires forall u :: u != uid ==> Fenced(c, s', u) == Fenced(c, s, u)
    ensures Inv(digest, c, s') <==> (OwnsRecords(s, uid) && uid !in s.users ==> Barred(c, s', uid))
  {
    hide Installation.Address, Fenced;
    forall u, x ensures Live(s', u, x) == Live(s, u, x) {}
    if OwnsRecords(s, uid) && uid !in s.users && !Barred(c, s', uid) {
      var id :| id in s.owners && s.owners[id] == uid;
      assert !Grounded(c, s');
    }
  }

  lemma DeleteUserExactly(digest: Digest, c: Config, s: State, uid: string)
    requires Inv(digest, c, s)
    ensures Inv(digest, c, s.(users := s.users - {uid})) <==> (OwnsRecords(s, uid) ==> Barred(c, s, uid))
  {
    hide Installation.Address, Fenced;
    var s' := s.(users := s.users - {uid});
    FenceReadsRequests(c, s, s');
    forall u, x | Live(s', u, x) ensures Live(s, u, x) {}
    if OwnsRecords(s, uid) && !Barred(c, s, uid) {
      var id :| id in s.owners && s.owners[id] == uid;
      assert !Grounded(c, s');
    }
  }

  lemma {:induction false} RunKeepsInv(digest: Digest, c: Config, s: State, steps: seq<Step>)
    requires Inv(digest, c, s) && Run(digest, c, s, steps)
    ensures Inv(digest, c, Exec(c, s, steps))
    decreases steps
  {
    hide Inv, Apply, Allowed;
    if steps != [] {
      StepKeepsInv(digest, c, s, steps[0]);
      RunKeepsInv(digest, c, Apply(c, s, steps[0]), steps[1..]);
    }
  }

  // In every reachable state one account at most holds a live address for a target, that
  // account is the recorded owner, and no map exceeds the cap.
  lemma SingleLiveHolder(digest: Digest, c: Config, steps: seq<Step>)
    requires Run(digest, c, EMPTY, steps)
    ensures var s := Exec(c, EMPTY, steps);
            && (forall u, i, v, j :: Live(s, u, i) && Live(s, v, j)
                  && s.users[u][i].targetType == s.users[v][j].targetType
                  && s.users[u][i].Address() == s.users[v][j].Address()
                  ==> u == v && i == j)
            && (forall u, i :: Live(s, u, i) ==> i in s.owners && s.owners[i] == u)
            && (forall i :: i in s.owners && s.owners[i] in s.users ==> i in s.users[s.owners[i]])
            && (forall u :: u in s.users ==> |s.users[u]| <= 20)
  {
    hide Exec, Run, Installation.Address;
    RunKeepsInv(digest, c, EMPTY, steps);
  }

  lemma TwoSteps(digest: Digest, c: Config, s: State, a: Step, b: Step)
    ensures Run(digest, c, s, [a, b]) <==> Allowed(digest, c, s, a) && Allowed(digest, c, Apply(c, s, a), b)
    ensures Exec(c, s, [a, b]) == Apply(c, Apply(c, s, a), b)
  {
    hide Apply, Allowed;
    assert [a, b][1..] == [b] && [b][1..] == [];
    assert Exec(c, Apply(c, s, a), [b]) == Exec(c, Apply(c, Apply(c, s, a), b), []);
    assert Run(digest, c, Apply(c, s, a), [b]) <==> Allowed(digest, c, Apply(c, s, a), b);
  }

  // Such states are there for every kind of store: a user the application has made can
  // register, whether or not registering makes documents.
  lemma RegistrationIsReachable(digest: Digest, c: Config, uid: string, id: string, i: Installation, now: int)
    requires WellFormed(digest, uid, id, i) && i.Address() != ""
    ensures var steps := [CreateUser(uid), DoUpsert(uid, id, i, now)];
            Run(digest, c, EMPTY, steps) && Live(Exec(c, EMPTY, steps), uid, id)
  {
    hide Run, Exec, Pruned, Installation.Address, Registered, Stamped;
    var made := Apply(c, EMPTY, CreateUser(uid));
    var step := DoUpsert(uid, id, i, now);
    var x := Registered(StoredFor(made, uid), id, Stamped(i, now));
    AddressKept(StoredFor(made, uid), id, i, now);
    PrunedFacts(StoredFor(made, uid)[id := x], id, x.updatedAt);
    assert made.users == map[uid := map[]] && made.requests == map[] && !OwnsRecords(EMPTY, uid);
    assert Upsert(c, made, uid, id, i, now).err.None?;
    TwoSteps(digest, c, EMPTY, CreateUser(uid), step);
  }

  // No step of one user removes another user's owner record, except an upsert of that key.
  lemma OthersKeepTheirRecords(c: Config, s: State, step: Step, id: string)
    requires id in s.owners
    ensures var s' := Apply(c, s, step);
            (id in s'.owners && s'.owners[id] == s.owners[id])
            || (step.DoUpsert? && step.id == id && id in s'.owners && s'.owners[id] == step.uid)
            || ((step.DoUpsert? || step.DoBeat? || step.DoDeleteOwner?) && step.uid == s.owners[id] && id !in s'.owners)
  {
  }

  // Registering moves a target and nothing else: the entry is stored with the history it had,
  // the account it is taken from keeps its entry without an address, and every other entry of
  // every other account is untouched.
  lemma TransferMovesOnlyTheTarget(c: Config, s: State, uid: string, id: string, installation: Installation, now: int)
    requires Upsert(c, s, uid, id, installation, now).err.None? && "" !in s.users
    ensures var s' := Upsert(c, s, uid, id, installation, now).state;
            && uid in s'.users && id in s'.users[uid] && s'.users[uid][id].Address() == installation.Address()
            && id in s'.owners && s'.owners[id] == uid
            && (id in StoredFor(s, uid) ==> KeepsHistory(s.users[uid][id], s'.users[uid][id]))
            && forall u :: u in s.users && u != uid ==>
                 u in s'.users && s'.users[u].Keys == s.users[u].Keys
                 && forall x :: x in s.users[u] ==>
                      if x == id && id in s.owners && s.owners[id] == u
                      then s'.users[u][x].Address() == "" && KeepsHistory(s.users[u][x], s'.users[u][x])
                      else s'.users[u][x] == s.users[u][x]
  {
    hide Pruned, Installation.Address, Fenced, Stamped;
    var i := Registered(StoredFor(s, uid), id, Stamped(installation, now));
    AddressKept(StoredFor(s, uid), id, installation, now);
    PrunedFacts(StoredFor(s, uid)[id := i], id, i.updatedAt);
    RetiredHasNoAddress();
  }

  // What a registration stores: the request, stamped, with the creation time and the markers
  // the entry had; every other entry of the account that stays is untouched.
  lemma RegistrationStores(c: Config, s: State, uid: string, id: string, request: Installation, now: int)
    requires Upsert(c, s, uid, id, request, now).err.None?
    ensures var s' := Upsert(c, s, uid, id, request, now).state;
            var had := uid in s.users && id in s.users[uid];
            && uid in s'.users && id in s'.users[uid]
            && var i := s'.users[uid][id];
               var updated := if request.updatedAt != 0 then request.updatedAt else now;
               && i.provider == request.provider && i.targetType == request.targetType
               && i.fid == request.fid && i.token == request.token && i.platform == request.platform
               && i.permission == request.permission && i.timezone == request.timezone && i.enabled == request.enabled
               && i.lastSeenAt == request.lastSeenAt && i.disabledAt == request.disabledAt && i.updatedAt == updated
               && i.createdAt == (if had && s.users[uid][id].createdAt != 0 then s.users[uid][id].createdAt
                                  else if request.createdAt != 0 then request.createdAt else updated)
               && i.delivered == (if had && s.users[uid][id].delivered != map[] then s.users[uid][id].delivered
                                  else request.delivered)
               && (forall x :: x in s'.users[uid] && x != id ==>
                     uid in s.users && x in s.users[uid] && s'.users[uid][x] == s.users[uid][x])
               && s'.users[uid] == Pruned(StoredFor(s, uid)[id := i], id, updated)
  {
    hide Pruned, Fenced;
    var i := Registered(StoredFor(s, uid), id, Stamped(request, now));
    PrunedFacts(StoredFor(s, uid)[id := i], id, i.updatedAt);
  }

  // Which owner records are left: the target's is the user's, a pruned entry's goes if it was
  // the user's, and the rest are untouched.
  ghost predicate OwnersFollow(s: State, s': State, uid: string, taken: Option<string>) {
    forall x :: OwnerLeft(s, s', uid, x, taken)
  }

  ghost predicate OwnerLeft(s: State, s': State, uid: string, x: string, taken: Option<string>) {
    if taken == Some(x) then x in s'.owners && s'.owners[x] == uid
    else if x in s.owners && s.owners[x] == uid && uid in s.users && x in s.users[uid]
            && !(uid in s'.users && x in s'.users[uid]) then x !in s'.owners
    else (x in s'.owners <==> x in s.owners) && (x in s.owners ==> s'.owners[x] == s.owners[x])
  }

  // Beside the user's map, a registration makes the document if it is missing and leaves the
  // entry of the account the target is taken from retired.
  lemma RegistrationMoves(c: Config, s: State, uid: string, id: string, request: Installation, now: int)
    requires Upsert(c, s, uid, id, request, now).err.None?
    ensures var s' := Upsert(c, s, uid, id, request, now).state;
            && OwnersFollow(s, s', uid, Some(id))
            && s'.users.Keys == s.users.Keys + {uid} && s'.requests == s.requests
  {
    hide Pruned, Fenced, Installation.Address, Installation.Retired, RetireIn, Registered, Stamped;
    var i := Registered(StoredFor(s, uid), id, Stamped(request, now));
    PrunedFacts(StoredFor(s, uid)[id := i], id, i.updatedAt);
  }

  lemma TransferRetires(c: Config, s: State, uid: string, id: string, request: Installation, now: int)
    requires Upsert(c, s, uid, id, request, now).err.None?
    requires id in s.owners && s.owners[id] != "" && s.owners[id] != uid && s.owners[id] in s.users
    requires id in s.users[s.owners[id]]
    ensures var at := if request.updatedAt != 0 then request.updatedAt else now;
            var users := Upsert(c, s, uid, id, request, now).state.users;
            && s.owners[id] in users && id in users[s.owners[id]]
            && users[s.owners[id]][id] ==
               s.users[s.owners[id]][id].(enabled := false, fid := "", token := "", disabledAt := at, updatedAt := at)
  {
    hide Pruned, Fenced, Installation.Address, WithoutOwned;
  }

  lemma HeartbeatOwners(s: State, uid: string, id: string, h: Heartbeat)
    requires Beat(s, uid, id, h).err.None?
    ensures OwnersFollow(s, Beat(s, uid, id, h).state, uid, None) && Beat(s, uid, id, h).state.requests == s.requests
  {
    hide Pruned, Installation.Address;
    PrunedFacts(s.users[uid][id := Refreshed(s.users[uid][id], h)], id, h.seenAt);
  }

  // When a registration is refused, and that it then changes nothing.
  lemma RegistrationRefused(c: Config, s: State, uid: string, id: string, request: Installation, now: int)
    ensures var r := Upsert(c, s, uid, id, request, now);
            var blocked := c.fenceConfigured && uid in s.requests
                           && (|c.blockedStatuses| == 0
                               || (c.statusField
                                   && (s.requests[uid].None? || s.requests[uid].value !in c.blockedStatuses
                                       || c.blockedStatuses[s.requests[uid].value])));
            && (r.err == Some(AccountDeletionFenced) <==> blocked)
            && (r.err == Some(UserNotFound) <==> !blocked && uid !in s.users && !c.createUsers)
            && (r.err == None || r.err == Some(AccountDeletionFenced) || r.err == Some(UserNotFound))
            && (r.err.Some? ==> r.state == s)
  {
    hide Pruned, Registered, Stamped;
  }

  // What a heartbeat stores: the parts it names and its time; a cleared address is not found.
  lemma HeartbeatStores(s: State, uid: string, id: string, h: Heartbeat)
    ensures var r := Beat(s, uid, id, h);
            var found := uid in s.users && id in s.users[uid]
                         && ((s.users[uid][id].targetType == Fid && s.users[uid][id].fid != "")
                             || (s.users[uid][id].targetType == Token && s.users[uid][id].token != ""));
            && r.err == (if found then None else Some(InstallationNotFound)) && (!found ==> r.state == s)
            && (found ==>
                  var i := s.users[uid][id];
                  var users := r.state.users;
                  && users.Keys == s.users.Keys && (forall u :: u in users && u != uid ==> users[u] == s.users[u])
                  && id in users[uid]
                  && users[uid][id] ==
                     i.(permission := if h.permission.Some? then h.permission.value else i.permission,
                        timezone := if h.timezone.Some? then h.timezone.value else i.timezone,
                        enabled := if h.enabled.Some? then h.enabled.value else i.enabled,
                        disabledAt := if h.enabled.None? then i.disabledAt else if h.enabled.value then 0 else h.seenAt,
                        lastSeenAt := h.seenAt, updatedAt := h.seenAt)
                  && (forall x :: x in users[uid] && x != id ==> x in s.users[uid] && users[uid][x] == s.users[uid][x])
                  && users[uid] == Pruned(s.users[uid][id := users[uid][id]], id, h.seenAt))
  {
    hide Pruned;
    if Live(s, uid, id) {
      PrunedFacts(s.users[uid][id := Refreshed(s.users[uid][id], h)], id, h.seenAt);
    }
  }

  // What retiring stores: the named entries lose their address and are disabled, with the
  // rest of them kept; nothing else changes.
  lemma DisableStores(s: State, uid: string, ids: set<string>, at: int, requireMatch: bool)
    ensures var r := Disable(s, uid, ids, at, requireMatch);
            var matched := uid in s.users && exists id :: id in ids && id in s.users[uid];
            && r.err == (if matched || !requireMatch then None else Some(InstallationNotFound))
            && r.state == s.(users := r.state.users) && r.state.users.Keys == s.users.Keys
            && forall u :: u in s.users ==>
                 && r.state.users[u].Keys == s.users[u].Keys
                 && forall x :: x in s.users[u] ==>
                      r.state.users[u][x] ==
                      if u == uid && x in ids
                      then s.users[u][x].(enabled := false, fid := "", token := "", disabledAt := at, updatedAt := at)
                      else s.users[u][x]
  {
    if uid in s.users {
      forall x | x in s.users[uid].Keys * ids ensures x in ids && x in s.users[uid] {}
      assert forall x :: x in ids && x in s.users[uid] ==> x in s.users[uid].Keys * ids;
    }
  }

  // What a delivery marker stores: its value under its key, in the named entries with an
  // address; nothing else changes.
  lemma MarkStores(s: State, uid: string, ids: set<string>, key: string, value: string)
    ensures var s' := Mark(s, uid, ids, key, value);
            && s' == s.(users := s'.users) && s'.users.Keys == s.users.Keys
            && forall u :: u in s.users ==>
                 && s'.users[u].Keys == s.users[u].Keys
                 && forall x :: x in s.users[u] ==>
                      var i := s.users[u][x];
                      s'.users[u][x] ==
                      if u == uid && x in ids
                         && ((i.targetType == Fid && i.fid != "") || (i.targetType == Token && i.token != ""))
                      then i.(delivered := i.delivered[key := value]) else i
  {
  }

  ghost predicate KeepsHistory(before: Installation, after: Installation) {
    (before.createdAt != 0 ==> after.createdAt == before.createdAt)
    && (before.delivered != map[] ==> after.delivered == before.delivered)
  }

  // ---- Retired addresses stay retired --------------------------------------------------------

  lemma OnlyUpsertRevives(c: Config, s: State, step: Step, uid: string, id: string)
    requires !Live(s, uid, id) && !(step.DoUpsert? && step.uid == uid && step.id == id)
    ensures !Live(Apply(c, s, step), uid, id)
  {
    hide Pruned, Installation.Address, Refreshed;
    RetiredHasNoAddress();
    match step
    case DoUpsert(u, x, installation, now) =>
      if Upsert(c, s, u, x, installation, now).err.None? {
        var i := Registered(StoredFor(s, u), x, Stamped(installation, now));
        PrunedFacts(StoredFor(s, u)[x := i], x, i.updatedAt);
      }
    case DoBeat(u, x, h) =>
      if Live(s, u, x) {
        PrunedFacts(s.users[u][x := Refreshed(s.users[u][x], h)], x, h.seenAt);
      }
    case DoDisable(_, _, _, _) =>
    case DoMark(u, ids, key, value) => MarkAddress(s, u, ids, key, value, uid, id);
    case _ =>
  }

  lemma MarkAddress(s: State, u: string, ids: set<string>, key: string, value: string, uid: string, id: string)
    ensures Live(Mark(s, u, ids, key, value), uid, id) <==> Live(s, uid, id)
  {
  }

  ghost predicate NoUpsertOf(steps: seq<Step>, uid: string, id: string) {
    forall k :: 0 <= k < |steps| && steps[k].DoUpsert? ==> !(steps[k].uid == uid && steps[k].id == id)
  }

  // Heartbeats, pruning, marks and other accounts never bring a retired address back.
  lemma {:induction false} StaysRetired(c: Config, s: State, steps: seq<Step>, uid: string, id: string)
    requires !Live(s, uid, id) && NoUpsertOf(steps, uid, id)
    ensures !Live(Exec(c, s, steps), uid, id)
    decreases steps
  {
    hide Live, Apply;
    if steps != [] {
      OnlyUpsertRevives(c, s, steps[0], uid, id);
      StaysRetired(c, Apply(c, s, steps[0]), steps[1..], uid, id);
    }
  }

  // No step of the store brings back the document of a barred user, so its owner records can
  // be cleaned up at any later time; the application has to leave the document and the
  // request alone until then.
  lemma BarHolds(c: Config, s: State, step: Step, uid: string)
    requires Barred(c, s, uid) && uid !in s.users
    requires (step.CreateUser? || step.RequestDeletion? || step.WithdrawRequest?) ==> step.uid != uid
    ensures var s' := Apply(c, s, step); Barred(c, s', uid) && uid !in s'.users
  {
    hide Pruned;
  }

  // Without the fence an account can come back between the listing of its owner records and
  // their deletion, by registering or, where registering makes no documents, by being
  // created again. It then holds an address without an owner record.
  lemma UnfencedDeletionBreaks(digest: Digest, c: Config, s: State, uid: string, id: string, i: Installation, now: int)
    requires Inv(digest, c, s) && WellFormed(digest, uid, id, i) && i.Address() != ""
    requires id in s.owners && s.owners[id] == uid && !Fenced(c, s, uid)
    ensures var gone := Apply(c, s, DeleteUser(uid));
            var back := if c.createUsers then gone else Apply(c, gone, CreateUser(uid));
            var registered := Apply(c, back, DoUpsert(uid, id, i, now));
            var end := Apply(c, registered, DoDeleteOwner(uid, id));
            && id in gone.owners && gone.owners[id] == uid
            && Live(end, uid, id) && id !in end.owners && !Inv(digest, c, end)
  {
    hide Pruned, Installation.Address, Registered, Stamped, Fenced;
    var gone := Apply(c, s, DeleteUser(uid));
    var back := if c.createUsers then gone else Apply(c, gone, CreateUser(uid));
    FenceReadsRequests(c, s, back);
    var x := Registered(StoredFor(back, uid), id, Stamped(i, now));
    AddressKept(StoredFor(back, uid), id, i, now);
    PrunedFacts(StoredFor(back, uid)[id := x], id, x.updatedAt);
    LiveUnowned(digest, c, Apply(c, Apply(c, back, DoUpsert(uid, id, i, now)), DoDeleteOwner(uid, id)), uid, id);
  }

  lemma LiveUnowned(digest: Digest, c: Config, s: State, uid: string, id: string)
    ensures Live(s, uid, id) && id !in s.owners ==> !Inv(digest, c, s)
  {
    hide Live;
  }

  // ---- Account switch ---------------------------------------------------------------------------

  // A client deletes its ids one by one; a missing installation counts as deleted.
  function UnbindAll(s: State, uid: string, ids: seq<string>, at: int): State
    decreases ids
  {
    if ids == [] then s else UnbindAll(Disable(s, uid, {ids[0]}, at, true).state, uid, ids[1..], at)
  }

  lemma {:induction false} UnbindAllRetires(c: Config, s: State, uid: string, ids: seq<string>, at: int, id: string)
    requires id in ids || !Live(s, uid, id)
    ensures !Live(UnbindAll(s, uid, ids, at), uid, id)
    decreases ids
  {
    hide Installation.Address;
    if ids != [] {
      RetiredHasNoAddress();
      var s' := Disable(s, uid, {ids[0]}, at, true).state;
      assert uid in s.users && ids[0] in s.users[uid] ==> ids[0] in s.users[uid].Keys * {ids[0]};
      assert id in ids && id != ids[0] ==> id in ids[1..];
      if ids[0] != id && !Live(s, uid, id) {
        OnlyUpsertRevives(c, s, DoDisable(uid, {ids[0]}, at, true), uid, id);
      }
      UnbindAllRetires(c, s', uid, ids[1..], at, id);
    }
  }

  // After an unbind, and until the old account registers again, none of its saved ids is
  // an active target of that account; and a target another account then holds is active
  // for no one else.
  lemma AccountSwitch(digest: Digest, c: Config, before: seq<Step>, uid: string, ids: seq<string>, at: int,
                      after: seq<Step>, id: string, next: string, now: int)
    requires Run(digest, c, EMPTY, before) && id in ids && NoUpsertOf(after, uid, id)
    requires Run(digest, c, UnbindAll(Exec(c, EMPTY, before), uid, ids, at), after)
    ensures var s := Exec(c, UnbindAll(Exec(c, EMPTY, before), uid, ids, at), after);
            && !(uid in s.users && id in s.users[uid] && s.users[uid][id].ActiveAt(now))
            && (Live(s, next, id) ==>
                  forall u, x | u in s.users && x in s.users[u] && s.users[u][x].ActiveAt(now)
                                && s.users[u][x].targetType == s.users[next][id].targetType
                                && s.users[u][x].Address() == s.users[next][id].Address()
                    :: u == next && x == id)
  {
    hide Exec, Run, Installation.Address, Inv;
    var s0 := Exec(c, EMPTY, before);
    RunKeepsInv(digest, c, EMPTY, before) by { EmptyInv(digest, c); }
    var s1 := UnbindAll(s0, uid, ids, at);
    UnbindAllRetires(c, s0, uid, ids, at, id);
    UnbindAllKeepsInv(digest, c, s0, uid, ids, at);
    var s := Exec(c, s1, after);
    StaysRetired(c, s1, after, uid, id);
    RunKeepsInv(digest, c, s1, after);
    OneHolder(digest, c, s);
  }

  lemma EmptyInv(digest: Digest, c: Config)
    ensures Inv(digest, c, EMPTY)
  {
  }

  lemma OneHolder(digest: Digest, c: Config, s: State)
    requires Inv(digest, c, s)
    ensures forall u, i, v, j :: Live(s, u, i) && Live(s, v, j)
              && s.users[u][i].targetType == s.users[v][j].targetType
              && s.users[u][i].Address() == s.users[v][j].Address()
              ==> u == v && i == j
  {
  }

  lemma {:induction false} UnbindAllKeepsInv(digest: Digest, c: Config, s: State, uid: string, ids: seq<string>,
                                             at: int)
    requires Inv(digest, c, s)
    ensures Inv(digest, c, UnbindAll(s, uid, ids, at))
    decreases ids
  {
    hide Inv, Disable;
    if ids != [] {
      DisableKeepsInv(digest, c, s, uid, {ids[0]}, at, true);
      UnbindAllKeepsInv(digest, c, Disable(s, uid, {ids[0]}, at, true).state, uid, ids[1..], at);
    }
  }

  // ---- Retiring many installations ---------------------------------------------------------------

  // The ids named for a user; references without a user or an id are ignored.
  ghost function IdsFor(refs: seq<Ref>, uid: string): set<string> {
    set ref | ref in refs && ref.uid == uid && uid != "" && ref.installationId != "" :: ref.installationId
  }

  lemma IdsForSnoc(refs: seq<Ref>, i: nat)
    requires i < |refs|
    ensures forall uid :: IdsFor(refs[..i + 1], uid)
              == IdsFor(refs[..i], uid)
                + (if refs[i].uid == uid && uid != "" && refs[i].installationId != ""
                   then {refs[i].installationId} else {})
  {
  }

  // The users in done are retired, but for those whose transaction fails.
  ghost function SweptIn(s: State, refs: seq<Ref>, at: int, failing: iset<string>, done: set<string>): State {
    s.(users := map u | u in s.users ::
                  if u in done && u !in failing then RetireIn(s.users[u], IdsFor(refs, u), at) else s.users[u])
  }

  ghost function Swept(s: State, refs: seq<Ref>, at: int, failing: iset<string>): State {
    s.(users := map u | u in s.users ::
                  if u !in failing then RetireIn(s.users[u], IdsFor(refs, u), at) else s.users[u])
  }

  // What retiring by reference stores: the named entries of the users whose transaction
  // succeeds are retired, but for references without a user or an id; nothing else changes.
  lemma SweepStores(s: State, refs: seq<Ref>, at: int, failing: iset<string>)
    ensures var s' := Swept(s, refs, at, failing);
            && s' == s.(users := s'.users) && s'.users.Keys == s.users.Keys
            && forall u :: u in s.users ==>
                 && s'.users[u].Keys == s.users[u].Keys
                 && forall x :: x in s.users[u] ==>
                      s'.users[u][x] ==
                      if Ref(u, x) in refs && u != "" && x != "" && u !in failing
                      then s.users[u][x].(enabled := false, fid := "", token := "", disabledAt := at, updatedAt := at)
                      else s.users[u][x]
  {
    forall u, x ensures x in IdsFor(refs, u) <==> Ref(u, x) in refs && u != "" && x != "" {
      NamedIn(refs, u, x);
    }
  }

  lemma NamedIn(refs: seq<Ref>, uid: string, id: string)
    ensures id in IdsFor(refs, uid) <==> Ref(uid, id) in refs && uid != "" && id != ""
  {
    if Ref(uid, id) in refs && uid != "" && id != "" {
      assert Ref(uid, id).installationId == id;
    }
  }

  lemma FailsByUser(refs: seq<Ref>, failing: iset<string>)
    ensures (exists uid :: IdsFor(refs, uid) != {} && uid in failing) <==>
            exists ref :: ref in refs && ref.uid != "" && ref.installationId != "" && ref.uid in failing
  {
    if ref :| ref in refs && ref.uid != "" && ref.installationId != "" && ref.uid in failing {
      assert ref.installationId in IdsFor(refs, ref.uid);
    }
    if uid :| IdsFor(refs, uid) != {} && uid in failing {
      var id :| id in IdsFor(refs, uid);
    }
  }

  lemma SweptNobody(s: State, refs: seq<Ref>, at: int, failing: iset<string>)
    ensures SweptIn(s, refs, at, failing, {}) == s
  {
  }

  lemma SweptAll(s: State, refs: seq<Ref>, at: int, failing: iset<string>, done: set<string>)
    requires forall uid :: uid in done <==> IdsFor(refs, uid) != {}
    ensures SweptIn(s, refs, at, failing, done) == Swept(s, refs, at, failing)
  {
    forall u | u in s.users && u !in done ensures RetireIn(s.users[u], IdsFor(refs, u), at) == s.users[u] {
      RetireNone(s.users[u], IdsFor(refs, u), at);
    }
  }

  lemma RetireNone(m: InstallationMap, ids: set<string>, at: int)
    requires m.Keys * ids == {}
    ensures RetireIn(m, ids, at) == m
  {
    forall id | id in m ensures id !in ids {
      assert id !in m.Keys * ids;
    }
  }

  lemma SweptOne(s: State, refs: seq<Ref>, at: int, failing: iset<string>, done: set<string>, uid: string)
    requires uid !in done
    ensures var before := SweptIn(s, refs, at, failing, done);
            SweptIn(s, refs, at, failing, done + {uid})
            == if uid in failing then before else Disable(before, uid, IdsFor(refs, uid), at, false).state
  {
    if uid in s.users && s.users[uid].Keys * IdsFor(refs, uid) == {} {
      RetireNone(s.users[uid], IdsFor(refs, uid), at);
    }
  }

  // Retiring reported installations keeps the invariant, silences each of them whose
  // transaction succeeds, and touches nobody else's.
  lemma SweepRetiresExactly(digest: Digest, c: Config, s: State, refs: seq<Ref>, at: int, failing: iset<string>)
    requires Inv(digest, c, s)
    ensures var s' := Swept(s, refs, at, failing);
            && Inv(digest, c, s')
            && (forall u, id :: Live(s', u, id) <==> Live(s, u, id) && (u in failing || id !in IdsFor(refs, u)))
  {
    hide Installation.Address, Inv, IdsFor, InPlace, RetireIn;
    var s' := Swept(s, refs, at, failing);
    forall u | u in s.users
      ensures InPlace(s.users[u], s'.users[u])
      ensures forall id :: Live(s', u, id) <==> Live(s, u, id) && (u in failing || id !in IdsFor(refs, u))
    {
      RetireInPlace(s.users[u], IdsFor(refs, u), at);
      SameKeys(s.users[u], s'.users[u]);
    }
    InPlaceKeepsInv(digest, c, s, s');
  }

  lemma SameKeys(m: InstallationMap, m': InstallationMap)
    requires InPlace(m, m')
    ensures m.Keys == m'.Keys
  {
  }

  // ---- The store --------------------------------------------------------------------------------

  class Store {
    const config: Config
    var users: map<string, InstallationMap>
    var owners: map<string, string>
    var requests: map<string, Option<string>>

    constructor (config: Config)
      ensures this.config == config && Contents() == EMPTY
    {
      this.config := config;
      users, owners, requests := map[], map[], map[];
    }

    ghost function Contents(): State
      reads this
    {
      State(users, owners, requests)
    }

    // Which of the pruned ids this user still owns.
    method OwnedPrunedIds(uid: string, removed: seq<string>) returns (owned: set<string>)
      ensures owned == set id | id in removed && id in owners && owners[id] == uid
    {
      owned := {};
      for i := 0 to |removed|
        invariant owned == set id | id in removed[..i] && id in owners && owners[id] == uid
      {
        assert removed[..i + 1] == removed[..i] + [removed[i]];
        if removed[i] in owners && owners[removed[i]] == uid {
          owned := owned + {removed[i]};
        }
      }
      assert removed[..|removed|] == removed;
    }

    method DeletionFence(uid: string) returns (blocked: bool)
      ensures blocked == Fenced(config, Contents(), uid)
    {
      hide DeleteStatusBlocked;
      blocked := false;
      if config.fenceConfigured && uid in requests {
        blocked := |config.blockedStatuses| == 0;
        if !blocked && config.statusField {
          blocked := DeleteStatusBlocked(requests[uid], config.blockedStatuses);
        }
      }
    }

    // The account the target is taken from keeps the entry without its address.
    method RetirePrior(ownerUid: string, uid: string, id: string, at: int)
      modifies this`users
      ensures users == if ownerUid != "" && ownerUid != uid && ownerUid in old(users)
                       then old(users)[ownerUid := RetireIn(old(users)[ownerUid], {id}, at)] else old(users)
    {
      hide Installation.Retired, RetireIn;
      RetireOne(users, ownerUid, id, at);
      if ownerUid != "" && ownerUid != uid && ownerUid in users && id in users[ownerUid] {
        users := users[ownerUid := users[ownerUid][id := users[ownerUid][id].Retired(at)]];
      }
    }

    method UpsertPushInstallation(uid: string, id: string, original: Installation, now: int)
      returns (err: Option<StoreError>)
      modifies this`users, this`owners
      ensures Contents() == Upsert(config, old(Contents()), uid, id, original, now).state
      ensures err == Upsert(config, old(Contents()), uid, id, original, now).err
    {
      hide Pruned, Installation.Address, Installation.Retired, PreserveRegistrationState, Fenced, Stamped, RetireIn;
      var installation := Stamped(original, now);
      var blocked := DeletionFence(uid);
      if blocked {
        return Some(AccountDeletionFenced);
      }
      if uid !in users && !config.createUsers {
        return Some(UserNotFound);
      }
      var stored: InstallationMap := if uid in users then users[uid] else map[];
      var ownerUid := if id in owners then owners[id] else "";
      if id in stored {
        installation := PreserveRegistrationState(stored[id], installation);
      }
      ghost var before := stored[id := installation];
      var kept, removed := Prune(stored[id := installation], id, installation.updatedAt);
      var owned := OwnedPrunedIds(uid, removed);
      RetirePrior(ownerUid, uid, id, installation.updatedAt);
      users := users[uid := kept];
      PrunedFacts(before, id, installation.updatedAt);
      owners := owners[id := uid];
      owners := owners - owned;
      OwnedAreDropped(old(owners), removed, owned, before.Keys - kept.Keys, uid, id);
      err := None;
    }

    method HeartbeatPushInstallation(uid: string, id: string, h: Heartbeat) returns (err: Option<StoreError>)
      modifies this`users, this`owners
      ensures Contents() == Beat(old(Contents()), uid, id, h).state
      ensures err == Beat(old(Contents()), uid, id, h).err
    {
      hide Pruned, Installation.Address;
      if uid !in users || id !in users[uid] || users[uid][id].Address() == "" {
        return Some(InstallationNotFound);
      }
      var installation := users[uid][id];
      if h.permission.Some? {
        installation := installation.(permission := h.permission.value);
      }
      if h.timezone.Some? {
        installation := installation.(timezone := h.timezone.value);
      }
      if h.enabled.Some? {
        installation := installation.(enabled := h.enabled.value);
        installation := installation.(disabledAt := if installation.enabled then 0 else h.seenAt);
      }
      installation := installation.(lastSeenAt := h.seenAt, updatedAt := h.seenAt);
      ghost var before := users[uid][id := installation];
      var kept, removed := Prune(users[uid][id := installation], id, h.seenAt);
      var owned := OwnedPrunedIds(uid, removed);
      users := users[uid := kept];
      owners := owners - owned;
      assert forall x :: x in removed <==> x in Elements(removed);
      err := None;
    }

    // ids are the map keys, in any order.
    method DisableIds(uid: string, ids: set<string>, at: int, requireMatch: bool) returns (err: Option<StoreError>)
      modifies this`users
      ensures Contents() == Disable(old(Contents()), uid, ids, at, requireMatch).state
      ensures err == Disable(old(Contents()), uid, ids, at, requireMatch).err
    {
      hide Installation.Retired;
      if uid !in users {
        return if requireMatch then Some(InstallationNotFound) else None;
      }
      var m := users[uid];
      ghost var m0 := m;
      var matched := false;
      var todo := ids;
      while todo != {}
        invariant todo <= ids && m == RetireIn(m0, ids - todo, at)
        invariant matched <==> m0.Keys * (ids - todo) != {}
      {
        var id :| id in todo;
        todo := todo - {id};
        if id in m {
          m := m[id := m[id].Retired(at)];
          matched := true;
        }
      }
      assert ids - todo == ids;
      if !matched {
        return if requireMatch then Some(InstallationNotFound) else None;
      }
      users := users[uid := m];
      err := None;
    }

    // One transaction per user, in any order; failing holds the users whose transaction fails.
    method DisablePushInstallations(refs: seq<Ref>, at: int, failing: iset<string>) returns (failed: bool)
      modifies this`users
      ensures Contents() == Swept(old(Contents()), refs, at, failing)
      ensures failed <==> exists uid :: IdsFor(refs, uid) != {} && uid in failing
      ensures failed <==> exists ref :: ref in refs && ref.uid != "" && ref.installationId != "" && ref.uid in failing
    {
      hide IdsFor, RetireIn, Swept, SweptIn, Disable;
      var byUser := GroupByUser(refs);
      failed := false;
      ghost var before := Contents();
      var todo := byUser.Keys;
      SweptNobody(before, refs, at, failing);
      assert byUser.Keys - todo == {};
      while todo != {}
        invariant todo <= byUser.Keys && Contents() == SweptIn(before, refs, at, failing, byUser.Keys - todo)
        invariant failed <==> exists uid :: uid in byUser.Keys - todo && uid in failing
      {
        var uid :| uid in todo;
        SweptOne(before, refs, at, failing, byUser.Keys - todo, uid);
        assert byUser.Keys - (todo - {uid}) == (byUser.Keys - todo) + {uid};
        todo := todo - {uid};
        if uid in failing {
          failed := true;
        } else {
          var err := DisableIds(uid, byUser[uid], at, false);
        }
      }
      SweptAll(before, refs, at, failing, byUser.Keys);
      FailsByUser(refs, failing);
      assert byUser.Keys - todo == byUser.Keys;
    }

    method GroupByUser(refs: seq<Ref>) returns (byUser: map<string, set<string>>)
      ensures forall uid :: uid in byUser <==> IdsFor(refs, uid) != {}
      ensures forall uid :: uid in byUser ==> byUser[uid] == IdsFor(refs, uid)
    {
      byUser := map[];
      for i := 0 to |refs|
        invariant forall uid :: uid in byUser <==> IdsFor(refs[..i], uid) != {}
        invariant forall uid :: uid in byUser ==> byUser[uid] == IdsFor(refs[..i], uid)
      {
        IdsForSnoc(refs, i);
        var ref := refs[i];
        if ref.uid != "" && ref.installationId != "" {
          byUser := byUser[ref.uid := (if ref.uid in byUser then byUser[ref.uid] else {}) + {ref.installationId}];
        }
      }
      assert refs[..|refs|] == refs;
    }

    method MarkDelivered(uid: string, ids: set<string>, key: string, value: string)
      modifies this`users
      ensures Contents() == Mark(old(Contents()), uid, ids, key, value)
    {
      hide Installation.Address;
      if uid !in users {
        return;
      }
      var m := users[uid];
      ghost var m0 := m;
      var changed := false;
      var todo := ids;
      while todo != {}
        invariant todo <= ids && m == MarkIn(m0, ids - todo, key, value)
        invariant !changed ==> m == m0
      {
        var id :| id in todo;
        todo := todo - {id};
        if id in m && m[id].Address() != "" && !(key in m[id].delivered && m[id].delivered[key] == value) {
          m := m[id := m[id].(delivered := m[id].delivered[key := value])];
          changed := true;
        }
      }
      assert ids - todo == ids;
      if changed {
        users := users[uid := m];
      }
    }

    method DeleteOwnerIfOwned(uid: string, id: string)
      modifies this`owners
      ensures Contents() == DeleteOwner(old(Contents()), uid, id)
    {
      if id in owners && owners[id] == uid {
        owners := owners - {id};
      }
    }
  }

  lemma OwnedAreDropped(owners: map<string, string>, removed: seq<string>, owned: set<string>, gone: set<string>,
                        uid: string, id: string)
    requires removed == Listing(gone) && id !in gone
    requires owned == set x | x in removed && x in owners && owners[x] == uid
    ensures owners[id := uid] - owned == WithoutOwned(owners[id := uid], gone, uid)
  {
  }

  lemma RetireOne(users: map<string, InstallationMap>, uid: string, id: string, at: int)
    ensures uid in users ==>
              RetireIn(users[uid], {id}, at)
                == (if id in users[uid] then users[uid][id := users[uid][id].Retired(at)] else users[uid])
  {
  }
}
