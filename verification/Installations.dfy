/** A user's installation map: who is active, what retiring clears and what pruning keeps.
    Instants are integers; 0 is the zero time. */
module Installations {
  import opened Push
  import opened Ordering

  const MAX_INSTALLATIONS_PER_USER: nat := 20
  const INSTALLATION_ACTIVE_WINDOW: int := 45 * DAY
  const INSTALLATION_RETENTION: int := 90 * DAY
  const DISABLED_INSTALL_RETENTION: int := 30 * DAY

  datatype Provider = ProviderFcm | OtherProvider(name: string)
  datatype Platform = Ios | Android | OtherPlatform(name: string)
  datatype Permission = Granted | Denied | NotKnown

  datatype Installation = Installation(
    provider: Provider, targetType: TargetType, fid: string, token: string, platform: Platform, permission: Permission,
    timezone: string, enabled: bool, createdAt: int, updatedAt: int, lastSeenAt: int, disabledAt: int,
    delivered: map<string, string>)
  {
    function Address(): string {
      match targetType
      case Fid => fid
      case Token => token
      case OtherType(_) => ""
    }

    predicate ActiveAt(now: int) {
      provider == ProviderFcm && targetType.Valid() && Address() != "" && !platform.OtherPlatform? && enabled
      && permission == Granted && lastSeenAt != 0 && now - lastSeenAt <= INSTALLATION_ACTIVE_WINDOW
    }

    // The address is cleared, the history stays.
    function Retired(at: int): Installation {
      this.(enabled := false, fid := "", token := "", disabledAt := at, updatedAt := at)
    }

    function LastSeen(): int {
      if lastSeenAt == 0 then updatedAt else lastSeenAt
    }

    predicate Expired(now: int) {
      (LastSeen() != 0 && now - LastSeen() > INSTALLATION_RETENTION)
      || (!enabled && disabledAt != 0 && now - disabledAt > DISABLED_INSTALL_RETENTION)
    }
  }

  // Re-registering keeps the creation time and the delivery markers.
  function PreserveRegistrationState(existing: Installation, replacement: Installation): Installation {
    var r := if existing.createdAt != 0 then replacement.(createdAt := existing.createdAt) else replacement;
    if existing.delivered != map[] then r.(delivered := existing.delivered) else r
  }

  type InstallationMap = map<string, Installation>

  // ---- Which entries pruning keeps ---------------------------------------------------

  datatype Candidate = Candidate(id: string, lastSeen: int)

  predicate Older(a: Candidate, b: Candidate) {
    a.lastSeen < b.lastSeen || (a.lastSeen == b.lastSeen && Less(a.id, b.id))
  }

  function CandidateOf(m: InstallationMap, id: string): Candidate
    requires id in m
  {
    Candidate(id, m[id].LastSeen())
  }

  function Unexpired(m: InstallationMap, keep: string, now: int): InstallationMap {
    map id | id in m && (id == keep || !m[id].Expired(now)) :: m[id]
  }

  // How many removable entries are older than id.
  ghost function Rank(m: InstallationMap, keep: string, id: string): nat
    requires id in m
  {
    |OlderIds(m, keep, id)|
  }

  ghost function OlderIds(m: InstallationMap, keep: string, id: string): set<string>
    requires id in m
  {
    set x | x in m && x != keep && Older(CandidateOf(m, x), CandidateOf(m, id))
  }

  // The unexpired entries without the oldest ones above the cap.
  ghost function Pruned(m: InstallationMap, keep: string, now: int): InstallationMap {
    var u := Unexpired(m, keep, now);
    map id | id in u && (id == keep || Rank(u, keep, id) >= |u| - MAX_INSTALLATIONS_PER_USER) :: u[id]
  }

  lemma OlderStrictTotal()
    ensures StrictTotal(Older)
  {
    LessStrictTotal();
    forall a: Candidate, b: Candidate, c: Candidate | Older(a, b) && Older(b, c) ensures Older(a, c) {
      if Less(a.id, b.id) && Less(b.id, c.id) { LessTransitive(a.id, b.id, c.id); }
    }
    forall a: Candidate, b: Candidate
      ensures (Older(a, b) || Older(b, a) || a == b) && !(Older(a, b) && Older(b, a))
    {
      LessTotal(a.id, b.id);
    }
  }

  ghost function Removable(m: InstallationMap, keep: string): set<Candidate> {
    set id | id in m && id != keep :: CandidateOf(m, id)
  }

  ghost function IdsOf(cs: seq<Candidate>): set<string> {
    set c | c in cs :: c.id
  }

  lemma {:induction false} IdsOfSize(cs: seq<Candidate>)
    requires forall i, j :: 0 <= i < j < |cs| ==> cs[i].id != cs[j].id
    ensures |IdsOf(cs)| == |cs|
  {
    if cs != [] {
      var n := |cs| - 1;
      IdsOfSize(cs[..n]);
      assert cs == cs[..n] + [cs[n]];
      assert IdsOf(cs) == IdsOf(cs[..n]) + {cs[n].id};
      assert cs[n].id !in IdsOf(cs[..n]) by {
        forall c | c in cs[..n] ensures c.id != cs[n].id {
          var i :| 0 <= i < n && cs[i] == c;
        }
      }
    }
  }

  // Listed from the oldest on, a candidate's place is its rank.
  ghost predicate ListsRemovable(cs: seq<Candidate>, m: InstallationMap, keep: string) {
    Ascending(Older, cs) && forall c :: c in cs <==> c in Removable(m, keep)
  }

  lemma PlaceIsRank(cs: seq<Candidate>, m: InstallationMap, keep: string, i: nat)
    requires ListsRemovable(cs, m, keep) && i < |cs|
    ensures cs[i].id in m && cs[i].id != keep && CandidateOf(m, cs[i].id) == cs[i]
    ensures Rank(m, keep, cs[i].id) == i
  {
    hide Older;
    OlderStrictTotal();
    assert forall j :: 0 <= j < |cs| ==> cs[j] in Removable(m, keep);
    ListedIdsDistinct(cs, m, keep);
    assert IdsOf(cs[..i]) == OlderIds(m, keep, cs[i].id) by {
      forall x | x in IdsOf(cs[..i]) ensures x in OlderIds(m, keep, cs[i].id) {
        var c :| c in cs[..i] && c.id == x;
        var j :| 0 <= j < i && cs[j] == c;
        assert Older(cs[j], cs[i]);
      }
      forall x | x in OlderIds(m, keep, cs[i].id) ensures x in IdsOf(cs[..i]) {
        assert CandidateOf(m, x) in cs;
        var j :| 0 <= j < |cs| && cs[j] == CandidateOf(m, x);
        assert !Older(cs[i], cs[j]);
        assert cs[j] in cs[..i];
      }
    }
    IdsOfSize(cs[..i]);
  }

  lemma ListedIdsDistinct(cs: seq<Candidate>, m: InstallationMap, keep: string)
    requires ListsRemovable(cs, m, keep)
    ensures forall i, j :: 0 <= i < j < |cs| ==> cs[i].id != cs[j].id
  {
    hide Older;
    OlderStrictTotal();
    forall i, j | 0 <= i < j < |cs| ensures cs[i].id != cs[j].id {
      assert cs[i] in Removable(m, keep) && cs[j] in Removable(m, keep);
      assert Older(cs[i], cs[j]);
    }
  }

  lemma ListedSize(cs: seq<Candidate>, m: InstallationMap, keep: string)
    requires ListsRemovable(cs, m, keep)
    ensures IdsOf(cs) == m.Keys - {keep} && |cs| == |m.Keys - {keep}|
    ensures |m| - 1 <= |cs| <= |m|
  {
    ListedIdsDistinct(cs, m, keep);
    IdsOfSize(cs);
    forall id | id in m.Keys - {keep} ensures id in IdsOf(cs) {
      assert CandidateOf(m, id) in cs;
    }
    if keep in m {
      assert m.Keys == (m.Keys - {keep}) + {keep};
    } else {
      assert m.Keys == m.Keys - {keep};
    }
  }

  // Dropping the first max(0, |u| - 20) of the listing is what Pruned describes.
  lemma DropOldest(cs: seq<Candidate>, m: InstallationMap, keep: string, now: int, n: nat, kept: InstallationMap)
    requires var u := Unexpired(m, keep, now);
             ListsRemovable(cs, u, keep) && n <= |cs|
             && (n == if |u| <= MAX_INSTALLATIONS_PER_USER then 0 else |u| - MAX_INSTALLATIONS_PER_USER)
             && kept == u - IdsOf(cs[..n])
    ensures kept == Pruned(m, keep, now)
  {
    hide Older, ListsRemovable, Removable, IdsOf, Rank;
    var u := Unexpired(m, keep, now);
    ListedSize(cs, u, keep);
    forall id | id in u ensures id in IdsOf(cs[..n]) <==> id != keep && Rank(u, keep, id) < n {
      DroppedByRank(cs, u, keep, n, id);
    }
  }

  lemma DroppedByRank(cs: seq<Candidate>, u: InstallationMap, keep: string, n: nat, id: string)
    requires ListsRemovable(cs, u, keep) && n <= |cs| && id in u
    ensures id in IdsOf(cs[..n]) <==> id != keep && Rank(u, keep, id) < n
  {
    hide Older, Rank;
    ListedIdsDistinct(cs, u, keep);
    if id != keep {
      assert CandidateOf(u, id) in cs;
      var i :| 0 <= i < |cs| && cs[i] == CandidateOf(u, id);
      PlaceIsRank(cs, u, keep, i);
      if i < n { assert cs[i] in cs[..n]; }
      if id in IdsOf(cs[..n]) {
        var c :| c in cs[..n] && c.id == id;
        var j :| 0 <= j < n && cs[j] == c;
      }
    } else {
      forall c | c in cs[..n] ensures c.id != keep {
        assert c in Removable(u, keep);
      }
    }
  }

  // ---- Pruning in place, in whatever order the map is walked -----------------------------

  method RemoveExpired(m0: InstallationMap, keep: string, now: int) returns (m: InstallationMap, removed: seq<string>)
    ensures m == Unexpired(m0, keep, now)
    ensures Elements(removed) == m0.Keys - m.Keys && forall i, j :: 0 <= i < j < |removed| ==> removed[i] != removed[j]
  {
    m, removed := m0, [];
    var todo := m0.Keys;
    while todo != {}
      invariant todo <= m.Keys <= m0.Keys
      invariant forall id :: id in m ==> m[id] == m0[id]
      invariant forall id :: id in m0 && id !in todo ==> (id in m <==> id == keep || !m0[id].Expired(now))
      invariant Elements(removed) == m0.Keys - m.Keys
      invariant forall i, j :: 0 <= i < j < |removed| ==> removed[i] != removed[j]
    {
      var id :| id in todo;
      todo := todo - {id};
      if id != keep && m0[id].Expired(now) {
        assert id !in Elements(removed);
        m := m - {id};
        removed := removed + [id];
        assert Elements(removed) == Elements(removed[..|removed| - 1]) + {id};
      }
    }
  }

  method ListCandidates(m: InstallationMap, keep: string) returns (cs: seq<Candidate>)
    ensures forall c :: c in cs <==> c in Removable(m, keep)
    ensures forall i, j :: 0 <= i < j < |cs| ==> cs[i] != cs[j]
  {
    hide Installation.LastSeen;
    cs := [];
    var todo := m.Keys;
    while todo != {}
      invariant todo <= m.Keys
      invariant forall c :: c in cs <==> c in Removable(m, keep) && c.id !in todo
      invariant forall i, j :: 0 <= i < j < |cs| ==> cs[i] != cs[j]
    {
      var id :| id in todo;
      todo := todo - {id};
      if id != keep {
        cs := cs + [CandidateOf(m, id)];
      }
    }
  }

  ghost predicate Recorded(removed: seq<string>, m0: InstallationMap, m: InstallationMap) {
    Elements(removed) == m0.Keys - m.Keys && forall i, j :: 0 <= i < j < |removed| ==> removed[i] != removed[j]
  }

  lemma RecordOne(removed: seq<string>, m0: InstallationMap, m: InstallationMap, id: string)
    requires Recorded(removed, m0, m) && id in m && m.Keys <= m0.Keys
    ensures Recorded(removed + [id], m0, m - {id})
  {
    assert id !in Elements(removed);
    assert Elements(removed + [id]) == Elements(removed) + {id};
  }

  // Walks the sorted candidates until the cap is met.
  method RemoveOldest(m0: InstallationMap, u: InstallationMap, keep: string, cs: seq<Candidate>, removed0: seq<string>)
    returns (m: InstallationMap, removed: seq<string>, ghost k: nat)
    requires ListsRemovable(cs, u, keep) && |u| > MAX_INSTALLATIONS_PER_USER && u.Keys <= m0.Keys
    requires Recorded(removed0, m0, u)
    ensures k <= |cs| && k == |u| - MAX_INSTALLATIONS_PER_USER && m == u - IdsOf(cs[..k])
    ensures Recorded(removed, m0, m)
  {
    hide Older, Recorded, ListsRemovable;
    ListedSize(cs, u, keep);
    m, removed := u, removed0;
    var n := 0;
    assert IdsOf(cs[..0]) == {};
    while n < |cs| && |m| > MAX_INSTALLATIONS_PER_USER
      invariant n <= |cs| && |m| == |u| - n >= MAX_INSTALLATIONS_PER_USER
      invariant m == u - IdsOf(cs[..n])
      invariant Recorded(removed, m0, m)
    {
      RemoveNext(cs, u, keep, n, m);
      RecordOne(removed, m0, m, cs[n].id);
      m := m - {cs[n].id};
      removed := removed + [cs[n].id];
      n := n + 1;
    }
    k := n;
  }

  method Prune(m0: InstallationMap, keep: string, now: int) returns (m: InstallationMap, removed: seq<string>)
    ensures m == Pruned(m0, keep, now)
    ensures removed == Listing(m0.Keys - m.Keys)
  {
    hide Older, Rank, Unexpired, Pruned;
    m, removed := RemoveExpired(m0, keep, now);
    if |m| > MAX_INSTALLATIONS_PER_USER {
      ghost var u := m;
      var cs := ListCandidates(m, keep);
      OlderStrictTotal();
      cs := Sort(Older, cs);
      UnexpiredKeys(m0, keep, now);
      ghost var k;
      m, removed, k := RemoveOldest(m0, m, keep, cs, removed);
      DropOldest(cs, m0, keep, now, k, m);
    } else {
      SmallMap(m0, keep, now);
    }
    removed := SortStrings(removed);
    SortedIdsUnique(removed, Listing(m0.Keys - m.Keys));
  }

  lemma UnexpiredKeys(m: InstallationMap, keep: string, now: int)
    ensures Unexpired(m, keep, now).Keys <= m.Keys
  {
  }

  lemma RemoveNext(cs: seq<Candidate>, u: InstallationMap, keep: string, k: nat, m: InstallationMap)
    requires ListsRemovable(cs, u, keep) && k < |cs| && m == u - IdsOf(cs[..k])
    ensures cs[k].id in m && m - {cs[k].id} == u - IdsOf(cs[..k + 1]) && |m - {cs[k].id}| == |m| - 1
  {
    hide Older;
    ListedIdsDistinct(cs, u, keep);
    PlaceIsRank(cs, u, keep, k);
    assert cs[..k + 1] == cs[..k] + [cs[k]];
    assert IdsOf(cs[..k + 1]) == IdsOf(cs[..k]) + {cs[k].id};
    assert (m - {cs[k].id}).Keys == m.Keys - {cs[k].id};
  }

  lemma SmallMap(m: InstallationMap, keep: string, now: int)
    requires |Unexpired(m, keep, now)| <= MAX_INSTALLATIONS_PER_USER
    ensures Pruned(m, keep, now) == Unexpired(m, keep, now)
  {
  }

  // ---- What pruning guarantees ---------------------------------------------------------------

  lemma PrunedSize(m: InstallationMap, keep: string, now: int)
    ensures var u := Unexpired(m, keep, now);
            |Pruned(m, keep, now)| == if |u| <= MAX_INSTALLATIONS_PER_USER then |u| else MAX_INSTALLATIONS_PER_USER
  {
    hide Older, Rank;
    var u := Unexpired(m, keep, now);
    if |u| <= MAX_INSTALLATIONS_PER_USER {
      SmallMap(m, keep, now);
    } else {
      OlderStrictTotal();
      var cs := ListingExists(Older, Removable(u, keep));
      assert forall c :: c in cs <==> c in Elements(cs);
      ListedSize(cs, u, keep);
      ListedIdsDistinct(cs, u, keep);
      var n := |u| - MAX_INSTALLATIONS_PER_USER;
      DropOldest(cs, m, keep, now, n, u - IdsOf(cs[..n]));
      IdsOfSize(cs[..n]);
      assert IdsOf(cs[..n]) <= u.Keys by {
        forall x | x in IdsOf(cs[..n]) ensures x in u.Keys {
          var c :| c in cs[..n] && c.id == x;
          assert c in Removable(u, keep);
        }
      }
      assert (u - IdsOf(cs[..n])).Keys == u.Keys - IdsOf(cs[..n]);
    }
  }

  // Kept and removed split the map; the kept id survives; an entry goes because it expired
  // or because at least 20 entries that stay are not older than it; nothing that stays,
  // except the kept id, is older than something removed by the cap.
  lemma PruneIsJustified(m: InstallationMap, keep: string, now: int)
    ensures var p := Pruned(m, keep, now);
            && (forall id :: id in p ==> id in m && p[id] == m[id])
            && (keep in m ==> keep in p)
            && (forall id :: id in m && id !in p ==>
                  id != keep && (m[id].Expired(now) || |p| == MAX_INSTALLATIONS_PER_USER))
            && (forall id :: id in p && id != keep ==> !m[id].Expired(now))
            && (forall id, other :: id in m && id !in p && !m[id].Expired(now) && other in p && other != keep ==>
                  Older(CandidateOf(m, id), CandidateOf(m, other)))
  {
    hide Older;
    PrunedSize(m, keep, now);
    var p, u := Pruned(m, keep, now), Unexpired(m, keep, now);
    OlderStrictTotal();
    forall id, other | id in m && id !in p && !m[id].Expired(now) && other in p && other != keep
      ensures Older(CandidateOf(m, id), CandidateOf(m, other))
    {
      if !Older(CandidateOf(m, id), CandidateOf(m, other)) {
        assert OlderIds(u, keep, other) <= OlderIds(u, keep, id);
        SubsetSize(OlderIds(u, keep, other), OlderIds(u, keep, id));
      }
    }
  }

  // The age rules spelled out: 90 days unseen, counting from the update time if never seen,
  // or 30 days disabled; above 20 entries the least recently seen go, the lesser id first.
  lemma PruneByAge(m: InstallationMap, keep: string, now: int, id: string)
    requires id in m && id != keep
    ensures var p := Pruned(m, keep, now);
            var i := m[id];
            var seen := if i.lastSeenAt == 0 then i.updatedAt else i.lastSeenAt;
            var aged := (seen != 0 && now - seen > 7_776_000_000_000_000)
                       || (!i.enabled && i.disabledAt != 0 && now - i.disabledAt > 2_592_000_000_000_000);
            && (aged ==> id !in p) && |p| <= 20
            && (id !in p && !aged ==>
                  |p| == 20
                  && forall other :: other in p && other != keep ==>
                       var o := m[other];
                       var otherSeen := if o.lastSeenAt == 0 then o.updatedAt else o.lastSeenAt;
                       seen < otherSeen || (seen == otherSeen && Less(id, other)))
  {
    hide Pruned;
    PrunedSize(m, keep, now);
    PruneIsJustified(m, keep, now);
    assert m[id].Expired(now) ==> id !in Pruned(m, keep, now);
  }

  // What makes an entry active, and what is sent to: a Firebase target on a known platform,
  // enabled, with permission, and seen in the last 45 days.
  lemma ActiveExactly(uid: string, id: string, i: Installation, now: int)
    ensures var t := TargetOf(uid, id, i);
            && (i.ActiveAt(now) <==>
                  && i.provider == ProviderFcm && (i.platform == Ios || i.platform == Android)
                  && ((i.targetType == Fid && i.fid != "") || (i.targetType == Token && i.token != ""))
                  && i.enabled && i.permission == Granted
                  && i.lastSeenAt != 0 && now - i.lastSeenAt <= 3_888_000_000_000_000)
            && t.id == id && t.recipientId == uid && t.targetType == i.targetType
            && (i.targetType == Fid ==> t.address == i.fid) && (i.targetType == Token ==> t.address == i.token)
            && (i.targetType.OtherType? ==> t.address == "")
  {
  }

  lemma SubsetSize<T>(a: set<T>, b: set<T>)
    requires a <= b
    ensures |a| <= |b|
  {
    assert b == a + (b - a);
  }

  // A second prune at the same time removes nothing.
  lemma PruneTwice(m: InstallationMap, keep: string, now: int)
    ensures Pruned(Pruned(m, keep, now), keep, now) == Pruned(m, keep, now)
  {
    hide Rank;
    var p := Pruned(m, keep, now);
    PrunedSize(m, keep, now);
    assert Unexpired(p, keep, now) == p;
    SmallMap(p, keep, now);
  }

  // ---- Reading the map --------------------------------------------------------------------------

  function TargetOf(uid: string, id: string, i: Installation): Target {
    Target(id, uid, i.targetType, i.Address())
  }

  method ActiveTargets(m: InstallationMap, uid: string, now: int) returns (targets: seq<Target>)
    ensures forall t :: t in targets <==> t.id in m && m[t.id].ActiveAt(now) && t == TargetOf(uid, t.id, m[t.id])
    ensures forall i, j :: 0 <= i < j < |targets| ==> Less(targets[i].id, targets[j].id)
  {
    hide Installation.ActiveAt, Installation.Address;
    var ids := KeysOf(m);
    ids := SortStrings(ids);
    assert forall x :: x in ids <==> x in Elements(ids);
    targets := [];
    for i := 0 to |ids|
      invariant forall t :: t in targets <==>
                  t.id in ids[..i] && m[t.id].ActiveAt(now) && t == TargetOf(uid, t.id, m[t.id])
      invariant forall j, k :: 0 <= j < k < |targets| ==> Less(targets[j].id, targets[k].id)
    {
      assert ids[..i + 1] == ids[..i] + [ids[i]];
      var installation := m[ids[i]];
      if installation.ActiveAt(now) {
        forall j | 0 <= j < |targets| ensures Less(targets[j].id, ids[i]) {
          assert targets[j] in targets;
        }
        targets := targets + [TargetOf(uid, ids[i], installation)];
      }
    }
    assert ids[..|ids|] == ids;
  }

  method KeysOf(m: InstallationMap) returns (ids: seq<string>)
    ensures Elements(ids) == m.Keys && forall i, j :: 0 <= i < j < |ids| ==> ids[i] != ids[j]
  {
    ids := [];
    var todo := m.Keys;
    while todo != {}
      invariant todo <= m.Keys && Elements(ids) == m.Keys - todo
      invariant forall i, j :: 0 <= i < j < |ids| ==> ids[i] != ids[j]
    {
      var id :| id in todo;
      assert id !in Elements(ids);
      ids := ids + [id];
      todo := todo - {id};
      assert Elements(ids) == Elements(ids[..|ids| - 1]) + {id};
    }
  }

  // Among active entries: seen last, and of those the least id.
  ghost predicate IsNewest(m: InstallationMap, now: int, id: string) {
    && id in m && m[id].ActiveAt(now)
    && forall x :: x in m && m[x].ActiveAt(now) && x != id ==>
         m[x].lastSeenAt < m[id].lastSeenAt || (m[x].lastSeenAt == m[id].lastSeenAt && Less(id, x))
  }

  // The empty id marks "none yet", so it must not be a key.
  method NewestActiveInstallation(m: InstallationMap, now: int) returns (newestId: string, ok: bool)
    ensures "" !in m ==> (ok <==> exists id :: id in m && m[id].ActiveAt(now))
    ensures "" !in m && ok ==> IsNewest(m, now, newestId)
  {
    hide Installation.ActiveAt;
    LessStrictTotal();
    newestId := "";
    var newest := 0;
    var todo := m.Keys;
    while todo != {}
      invariant todo <= m.Keys
      invariant newestId != "" ==>
                  newestId in m && m[newestId].ActiveAt(now) && newestId !in todo && newest == m[newestId].lastSeenAt
      invariant "" !in m && newestId == "" ==> forall x :: x in m && x !in todo ==> !m[x].ActiveAt(now)
      invariant newestId != "" && "" !in m ==>
                  forall x :: x in m && x !in todo && m[x].ActiveAt(now) && x != newestId ==>
                    m[x].lastSeenAt < newest || (m[x].lastSeenAt == newest && Less(newestId, x))
    {
      var id :| id in todo;
      todo := todo - {id};
      var i := m[id];
      if i.ActiveAt(now)
         && (newestId == "" || i.lastSeenAt > newest || (i.lastSeenAt == newest && Less(id, newestId))) {
        newestId, newest := id, i.lastSeenAt;
      }
    }
    ok := newestId != "";
  }

  lemma NewestIsUnique(m: InstallationMap, now: int, a: string, b: string)
    requires IsNewest(m, now, a) && IsNewest(m, now, b)
    ensures a == b
  {
    LessTotal(a, b);
  }
}
