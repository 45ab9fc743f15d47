/** The controller that decides which clusters this server owns and drives the manager accordingly:
    pkg/api/controllers/usercontrollers/usercontroller.go. */
module UserControllers {
  import opened Basics
  import opened Ordering
  import opened ClusterManagement
  import opened PeerManagement
  import opened Sharding

  /** A checksum of the cluster UID; the source uses CRC-32, and nothing here depends on which one it is. */
  type Checksum = string -> uint32

  const PEER_LIMIT: int := 0x8000_0000

  /** What `setPeers` stores: the received peers and the server itself, sorted. */
  function WithSelf(p: Peers): Peers {
    p.(ids := Sort(p.ids + [p.selfID]))
  }

  predicate AmOwner(clustered: bool, peers: Peers, uid: string, checksum: Checksum)
    requires |peers.ids| < PEER_LIMIT
  {
    if !clustered then true
    else if !peers.ready || |peers.ids| == 0 || (|peers.ids| == 1 && !peers.leader) then false
    else
      ScaledInRange(checksum(uid), |peers.ids|);
      peers.ids[Scaled(checksum(uid), |peers.ids|)] == peers.selfID
  }

  /** Clusters this server should be running, as owner or follower. */
  predicate Eligible(c: Cluster) {
    !c.deleting && c.provisioned
  }

  /** One turn of the loop in `peersSync`: a cluster as it was listed, the cache at the moment the cluster is read
      again, and what the outside answers then. */
  datatype Visit = Visit(listed: Cluster, cache: map<string, Cluster>, outside: Outside)

  function SyncOne(t: Table, v: Visit, owner: bool): (r: (Table, bool))
    requires WellKeyed(t)
    ensures WellKeyed(r.0)
  {
    if !Eligible(v.listed) then (ClusterManagement.Stop(t, v.listed), true)
    else ClusterManagement.Start(t, v.listed, v.cache, owner, v.outside)
  }

  /** `peersSync`: every listed cluster in turn; an error does not stop the loop but is reported at the end. */
  function Sync(t: Table, visits: seq<Visit>, role: string -> bool): (r: (Table, bool))
    requires WellKeyed(t)
    ensures WellKeyed(r.0)
  {
    if visits == [] then (t, true)
    else
      var k := |visits| - 1;
      var (before, okBefore) := Sync(t, visits[..k], role);
      var (after, ok) := SyncOne(before, visits[k], role(visits[k].listed.uid));
      (after, okBefore && ok)
  }

  lemma SyncMore(t: Table, visits: seq<Visit>, role: string -> bool, i: nat)
    requires WellKeyed(t) && i < |visits|
    ensures var (before, ok) := Sync(t, visits[..i], role);
            var (after, one) := SyncOne(before, visits[i], role(visits[i].listed.uid));
            Sync(t, visits[..i + 1], role) == (after, ok && one)
  {
    assert visits[..i + 1][..i] == visits[..i];
  }

  /** What a visit wants of the record under a UID: nothing, that there be none, or that it run, with the connection
      data of `now` and in the role that belongs to the UID `via`, which is the one that was listed. */
  datatype Word = Silent | Dropped | Asked(via: string, now: Cluster)

  function WordOf(v: Visit, uid: string): Word {
    if !Eligible(v.listed) then (if v.listed.uid == uid then Dropped else Silent)
    else if v.listed.name in v.cache && v.cache[v.listed.name].uid == uid
      then Asked(v.listed.uid, v.cache[v.listed.name])
    else Silent
  }

  /** What the last visit wants that wants anything. */
  function LastWord(visits: seq<Visit>, uid: string): Word {
    if visits == [] then Silent
    else
      var k := |visits| - 1;
      if WordOf(visits[k], uid).Silent? then LastWord(visits[..k], uid) else WordOf(visits[k], uid)
  }

  /** The record under `uid` runs in this role, with the connection data of `now`. */
  ghost predicate InPlace(t: Table, uid: string, now: Cluster, role: bool) {
    && uid in t
    && t[uid].started
    && t[uid].owner == role
    && SameConnection(t[uid].clusterRec, now)
  }

  /** No controllers run for the cluster in the other role. */
  ghost predicate RoleAgrees(t: Table, uid: string, role: bool) {
    uid in t && t[uid].started ==> t[uid].owner == role
  }

  /** The record under this UID may be dropped but is not added or altered. */
  ghost predicate NotAdded(t: Table, next: Table, uid: string) {
    uid in next ==> uid in t && next[uid] == t[uid]
  }

  ghost predicate Unchanged(t: Table, next: Table, uid: string) {
    (uid in next <==> uid in t) && (uid in t ==> next[uid] == t[uid])
  }

  /** The API, asked about the cluster of this visit, does not answer with the cluster of this UID. */
  predicate SilentAnswer(v: Visit, uid: string) {
    v.outside.stored.Some? ==> v.outside.stored.value.uid != uid
  }

  ghost predicate Unmentioned(visits: seq<Visit>, uid: string) {
    forall i :: 0 <= i < |visits| ==> SilentAnswer(visits[i], uid)
  }

  /** What becomes of the record under `uid` when this is the last word on it. A failure may drop the record but never
      leaves it running otherwise than asked for. */
  ghost predicate Heeds(t: Table, next: Table, ok: bool, unmentioned: bool, word: Word, role: string -> bool,
                        uid: string)
  {
    match word
    case Silent => NotAdded(t, next, uid) && (ok || unmentioned ==> Unchanged(t, next, uid))
    case Dropped => uid !in next
    case Asked(via, now) => RoleAgrees(next, uid, role(via)) && (ok ==> InPlace(next, uid, now, role(via)))
  }

  lemma SyncOneOn(t: Table, v: Visit, role: string -> bool, uid: string)
    requires WellKeyed(t)
    ensures var (next, ok) := SyncOne(t, v, role(v.listed.uid));
            Heeds(t, next, ok, SilentAnswer(v, uid), WordOf(v, uid), role, uid)
  {
    var (next, ok) := SyncOne(t, v, role(v.listed.uid));
    if ok && Eligible(v.listed) {
      var its := v.cache[v.listed.name].uid;
      assert next - {its} == t - {its};
      assert uid != its ==> (uid in next <==> uid in next - {its}) && (uid in t <==> uid in t - {its});
      assert uid != its && uid in t ==> next[uid] == (next - {its})[uid] && t[uid] == (t - {its})[uid];
    }
  }

  /** One visit more. */
  lemma HeedsMore(t: Table, mid: Table, next: Table, ok: bool, one: bool, quiet: bool, still: bool, before: Word,
                  last: Word,
                  role: string -> bool, uid: string)
    requires Heeds(t, mid, ok, quiet, before, role, uid) && Heeds(mid, next, one, still, last, role, uid)
    ensures Heeds(t, next, ok && one, quiet && still, if last.Silent? then before else last, role, uid)
  {
  }

  /** What a synchronisation, with errors or without, does to any record: the last word counts. */
  lemma {:induction false} SyncOn(t: Table, visits: seq<Visit>, role: string -> bool, uid: string)
    requires WellKeyed(t)
    ensures var (next, ok) := Sync(t, visits, role);
            Heeds(t, next, ok, Unmentioned(visits, uid), LastWord(visits, uid), role, uid)
    decreases |visits|
  {
    if visits != [] {
      var k := |visits| - 1;
      var (before, ok) := Sync(t, visits[..k], role);
      var (after, one) := SyncOne(before, visits[k], role(visits[k].listed.uid));
      SyncOn(t, visits[..k], role, uid);
      SyncOneOn(before, visits[k], role, uid);
      HeedsMore(t, before, after, ok, one, Unmentioned(visits[..k], uid), SilentAnswer(visits[k], uid),
                LastWord(visits[..k], uid),
                WordOf(visits[k], uid), role, uid);
    }
  }

  lemma {:induction false} NoneMissing(t: Table, visits: seq<Visit>, role: string -> bool, i: nat)
    requires WellKeyed(t) && Sync(t, visits, role).1 && i < |visits| && Eligible(visits[i].listed)
    ensures visits[i].listed.name in visits[i].cache
    decreases |visits|
  {
    var k := |visits| - 1;
    if i < k {
      assert visits[..k][i] == visits[i];
      NoneMissing(t, visits[..k], role, i);
    }
  }

  /** A synchronisation without errors obeys the last word on every UID: it runs the clusters asked for, with the
      connection data of the cache, has no record of those to be dropped, and leaves all other records alone. No
      eligible cluster was missing in the cache. */
  lemma SyncSettles(t: Table, visits: seq<Visit>, role: string -> bool)
    requires WellKeyed(t) && Sync(t, visits, role).1
    ensures forall i :: 0 <= i < |visits| && Eligible(visits[i].listed) ==> visits[i].listed.name in visits[i].cache
    ensures var next := Sync(t, visits, role).0;
            forall uid ::
              match LastWord(visits, uid)
              case Silent => Unchanged(t, next, uid)
              case Dropped => uid !in next
              case Asked(via, now) => InPlace(next, uid, now, role(via))
  {
    forall i | 0 <= i < |visits| && Eligible(visits[i].listed) ensures visits[i].listed.name in visits[i].cache {
      NoneMissing(t, visits, role, i);
    }
    var next := Sync(t, visits, role).0;
    forall uid
      ensures match LastWord(visits, uid)
              case Silent => Unchanged(t, next, uid)
              case Dropped => uid !in next
              case Asked(via, now) => InPlace(next, uid, now, role(via))
    {
      SyncOn(t, visits, role, uid);
    }
  }

  /** Exactly when a cluster is in the wrong role afterwards: no visit reached its record, which was in the wrong role
      before, or the last one that did came by the name of a cluster that was listed under another UID, which has
      another role. If something failed, the record may also be gone or not started. */
  lemma WrongRoleExactly(t: Table, visits: seq<Visit>, role: string -> bool, uid: string)
    requires WellKeyed(t)
    ensures var (next, ok) := Sync(t, visits, role);
            var word := LastWord(visits, uid);
            var wrong := (word.Silent? && !RoleAgrees(t, uid, role(uid))) ||
              (word.Asked? && role(word.via) != role(uid));
            && (!RoleAgrees(next, uid, role(uid)) ==> wrong)
            && (wrong && (ok || (word.Silent? && Unmentioned(visits, uid))) ==> !RoleAgrees(next, uid, role(uid)))
  {
    SyncOn(t, visits, role, uid);
  }

  /** The cache has the listed cluster under its own UID when `Start` reads it again by name. */
  predicate InCache(v: Visit) {
    v.listed.name in v.cache && v.cache[v.listed.name].uid == v.listed.uid
  }

  /** Visiting the listed cluster may concern the record under this UID. */
  predicate LeadsTo(v: Visit, uid: string) {
    v.listed.uid == uid || (v.listed.name in v.cache && v.cache[v.listed.name].uid == uid)
  }

  /** No name leads to the UID of another listed cluster, and a cluster is not listed both as eligible and as not
      eligible. */
  ghost predicate Identified(visits: seq<Visit>) {
    forall i, j :: 0 <= i < |visits| && 0 <= j < |visits| && LeadsTo(visits[i], visits[j].listed.uid) ==>
      visits[i].listed.uid == visits[j].listed.uid && (Eligible(visits[i].listed) <==> Eligible(visits[j].listed))
  }

  /** Some visit finds the cluster in the cache under the UID it was listed with. */
  ghost predicate Found(visits: seq<Visit>, uid: string) {
    exists i :: 0 <= i < |visits| && visits[i].listed.uid == uid && InCache(visits[i])
  }

  /** Where the last word comes from. */
  lemma {:induction false} SaidBy(visits: seq<Visit>, uid: string) returns (i: nat)
    requires !LastWord(visits, uid).Silent?
    ensures i < |visits| && LastWord(visits, uid) == WordOf(visits[i], uid)
    decreases |visits|
  {
    i := |visits| - 1;
    if WordOf(visits[i], uid).Silent? {
      i := SaidBy(visits[..i], uid);
    }
  }

  lemma {:induction false} NobodySpoke(visits: seq<Visit>, uid: string, i: nat)
    requires LastWord(visits, uid).Silent? && i < |visits|
    ensures WordOf(visits[i], uid).Silent?
    decreases |visits|
  {
    var k := |visits| - 1;
    if i < k {
      assert visits[..k][i] == visits[i];
      NobodySpoke(visits[..k], uid, i);
    }
  }

  /** The last word on a listed cluster: to drop it if it is not eligible; else to run it in its own role if it is
      found, and nothing if it is not. */
  lemma WordOnListed(visits: seq<Visit>, j: nat)
    requires Identified(visits) && j < |visits|
    ensures var c := visits[j].listed;
            var word := LastWord(visits, c.uid);
            if !Eligible(c) then word.Dropped? else if Found(visits, c.uid) then word.Asked? && word.via == c.uid
              else word.Silent?
  {
    var c := visits[j].listed;
    if LastWord(visits, c.uid).Silent? {
      NobodySpoke(visits, c.uid, j);
      if Eligible(c) && Found(visits, c.uid) {
        var i :| 0 <= i < |visits| && visits[i].listed.uid == c.uid && InCache(visits[i]);
        NobodySpoke(visits, c.uid, i);
      }
    } else {
      var i := SaidBy(visits, c.uid);
      assert LeadsTo(visits[i], visits[j].listed.uid);
    }
  }

  /** With errors or without, a synchronisation leaves no listed cluster running in the wrong role, if the eligible ones
      that ran in the wrong role before are found; and none that is not eligible runs at all. */
  lemma SyncNeverLeavesWrongRole(t: Table, visits: seq<Visit>, role: string -> bool)
    requires WellKeyed(t) && Identified(visits)
    requires forall j :: 0 <= j < |visits| && Eligible(visits[j].listed) ==>
               RoleAgrees(t, visits[j].listed.uid, role(visits[j].listed.uid)) || Found(visits, visits[j].listed.uid)
    ensures var next := Sync(t, visits, role).0;
            forall j :: 0 <= j < |visits| ==>
              var c := visits[j].listed;
              RoleAgrees(next, c.uid, role(c.uid)) && (!Eligible(c) ==> c.uid !in next)
  {
    var next := Sync(t, visits, role).0;
    forall j | 0 <= j < |visits|
      ensures var c := visits[j].listed; RoleAgrees(next, c.uid, role(c.uid)) && (!Eligible(c) ==> c.uid !in next)
    {
      SyncOn(t, visits, role, visits[j].listed.uid);
      WordOnListed(visits, j);
    }
  }

  /** A cluster that has left the cache: the synchronisation fails, and the server goes on as owner of what it should
      follow. */
  lemma MissingClusterKeepsRole(c: Cluster, o: Outside)
    requires Eligible(c)
    ensures var t: Table := map[c.uid := Rec(c, true, true)];
            Sync(t, [Visit(c, map[], o)], _ => false) == (t, false) && !RoleAgrees(t, c.uid, false)
  {
    assert [Visit(c, map[], o)][..0] == [];
  }

  /** A cluster that was made anew under the same name after the listing: nothing fails, the server goes on as owner of
      the old one, and it runs the new one in the role that the old one should have. */
  lemma RecreatedClusterKeepsRole(c: Cluster, uid: string, role: string -> bool)
    requires Eligible(c) && Reachable(c) && uid != c.uid
    ensures var t: Table := map[c.uid := Rec(c, true, true)];
            var (next, ok) := Sync(t, [Visit(c, map[c.name := c.(uid := uid)], Outside(true, true, Synced, None))],
                                   role);
            && ok
            && c.uid in next && next[c.uid] == t[c.uid]
            && uid in next && next[uid].started && next[uid].owner == role(c.uid)
  {
    assert [Visit(c, map[c.name := c.(uid := uid)], Outside(true, true, Synced, None))][..0] == [];
  }

  /** The sorted peer list every server of `members` ends up with. */
  ghost predicate SeesFleet(p: Peers, members: set<string>) {
    && p.ready
    && p.selfID in members
    && Sorted(p.ids)
    && Enumerates(p.ids, members)
  }

  /** A notification that describes a ready server's other peers becomes a view of the whole fleet. */
  lemma WithSelfSeesFleet(p: Peers, s: PeerManagement.State)
    requires Describes(p, s) && Consistent(s)
    ensures Sorted(WithSelf(p).ids) && Enumerates(WithSelf(p).ids, s.peers + {s.selfID})
    ensures |WithSelf(p).ids| == |s.peers| + 1
  {
    var all := p.ids + [p.selfID];
    assert Enumerates(all, s.peers + {s.selfID});
    SortEnumerates(all, s.peers + {s.selfID});
    SortCorrect(all);
    EnumerationSize(WithSelf(p).ids, s.peers + {s.selfID});
  }

  /** Servers that see the same fleet have the same sorted list, whatever order their peers were listed in. */
  lemma SameFleetSameList(p: Peers, q: Peers, members: set<string>)
    requires SeesFleet(p, members) && SeesFleet(q, members)
    ensures p.ids == q.ids
  {
    EnumerationsPermute(p.ids, q.ids, members);
    SortedCanonical(p.ids, q.ids);
  }

  /** The owner of a cluster, as every member of the fleet computes it. */
  ghost function OwnerOf(p: Peers, uid: string, checksum: Checksum): string
    requires 0 < |p.ids| < PEER_LIMIT
  {
    ScaledInRange(checksum(uid), |p.ids|);
    p.ids[Scaled(checksum(uid), |p.ids|)]
  }

  lemma AgreeOnOwner(p: Peers, q: Peers, members: set<string>, uid: string, checksum: Checksum)
    requires 2 <= |members| < PEER_LIMIT && SeesFleet(p, members) && SeesFleet(q, members)
    ensures |p.ids| == |q.ids| == |members|
    ensures AmOwner(true, p, uid, checksum) <==> p.selfID == OwnerOf(q, uid, checksum)
  {
    EnumerationSize(p.ids, members);
    SameFleetSameList(p, q, members);
  }

  lemma OwnerIsMember(p: Peers, members: set<string>, uid: string, checksum: Checksum)
    requires 0 < |p.ids| < PEER_LIMIT && Enumerates(p.ids, members)
    ensures OwnerOf(p, uid, checksum) in members
  {
    ScaledInRange(checksum(uid), |p.ids|);
    ListedIsMember(p.ids, members, Scaled(checksum(uid), |p.ids|));
  }

  /** Every server's view is of this very fleet. */
  ghost predicate OneFleet(views: map<string, Peers>) {
    forall id :: id in views ==> views[id].selfID == id && SeesFleet(views[id], views.Keys)
  }

  /** The server thinks the cluster is its own. */
  ghost predicate Claims(views: map<string, Peers>, id: string, uid: string, checksum: Checksum)
    requires id in views
  {
    |views[id].ids| < PEER_LIMIT && AmOwner(true, views[id], uid, checksum)
  }

  lemma OneClaim(views: map<string, Peers>, id: string, one: string, uid: string, checksum: Checksum)
      returns (owner: string)
    requires 2 <= |views.Keys| < PEER_LIMIT && OneFleet(views) && id in views && one in views
    ensures 0 < |views[one].ids| < PEER_LIMIT && |views[id].ids| < PEER_LIMIT
    ensures owner in views && owner == OwnerOf(views[one], uid, checksum)
    ensures Claims(views, id, uid, checksum) <==> id == owner
  {
    AgreeOnOwner(views[id], views[one], views.Keys, uid, checksum);
    OwnerIsMember(views[one], views.Keys, uid, checksum);
    owner := OwnerOf(views[one], uid, checksum);
  }

  /** Two or more servers that see the same fleet agree on one owner, which is one of them. */
  lemma UniqueOwner(views: map<string, Peers>, uid: string, checksum: Checksum) returns (owner: string)
    requires 2 <= |views.Keys| < PEER_LIMIT && OneFleet(views)
    ensures owner in views
    ensures forall id :: id in views ==> |views[id].ids| < PEER_LIMIT
    ensures forall id :: id in views ==> (Claims(views, id, uid, checksum) <==> id == owner)
  {
    var one :| one in views.Keys;
    owner := OneClaim(views, one, one, uid, checksum);
    forall id | id in views
      ensures |views[id].ids| < PEER_LIMIT && (Claims(views, id, uid, checksum) <==> id == owner)
    {
      var same := OneClaim(views, id, one, uid, checksum);
    }
  }

  /** A server that sees only itself owns every cluster exactly when it is ready and leader. */
  lemma LoneServer(p: Peers, uid: string, checksum: Checksum)
    requires p.ids == [p.selfID]
    ensures AmOwner(true, p, uid, checksum) <==> p.ready && p.leader
  {
    if p.ready && p.leader {
      ScaledInRange(checksum(uid), 1);
    }
  }

  ghost function RoleIn(clustered: bool, peers: Peers, checksum: Checksum): string -> bool
    requires |peers.ids| < PEER_LIMIT
  {
    (uid: string) => AmOwner(clustered, peers, uid, checksum)
  }

  class Controller {
    const clustered: bool
    const manager: Manager
    const checksum: Checksum
    var peers: Peers

    constructor (clustered: bool, manager: Manager, checksum: Checksum, selfID: string)
      ensures this.clustered == clustered && this.manager == manager && this.checksum == checksum
      ensures peers == Peers(selfID, [], false, false)
    {
      this.clustered, this.manager, this.checksum := clustered, manager, checksum;
      peers := Peers(selfID, [], false, false);
    }

    ghost function Role(): string -> bool
      reads this
      requires |peers.ids| < PEER_LIMIT
    {
      RoleIn(clustered, peers, checksum)
    }

    method PeersSync(visits: seq<Visit>) returns (ok: bool)
      requires manager.Valid() && |peers.ids| < PEER_LIMIT
      modifies manager, manager.created
      ensures manager.Valid() && fresh(manager.created - old(manager.created))
      ensures ok == Sync(old(manager.View()), visits, Role()).1
      ensures manager.View() == Sync(old(manager.View()), visits, Role()).0
    {
      ok := true;
      for i := 0 to |visits|
        invariant manager.Valid() && fresh(manager.created - old(manager.created))
        invariant ok == Sync(old(manager.View()), visits[..i], Role()).1
        invariant manager.View() == Sync(old(manager.View()), visits[..i], Role()).0
      {
        SyncMore(old(manager.View()), visits, Role(), i);
        var c := visits[i].listed;
        if c.deleting || !c.provisioned {
          manager.StopCluster(c);
        } else {
          var owner := AmOwner(clustered, peers, c.uid, checksum);
          var started := manager.StartCluster(c, visits[i].cache, owner, visits[i].outside);
          ok := ok && started;
        }
      }
      assert visits[..|visits|] == visits;
    }

    /** `setPeers`: take a new peer list if there is one, then bring every cluster in line with it. */
    method SetPeers(received: Option<Peers>, list: Option<seq<Visit>>) returns (ok: bool)
      requires manager.Valid()
      requires |(if received.Some? then WithSelf(received.value) else peers).ids| < PEER_LIMIT
      modifies this`peers, manager, manager.created
      ensures manager.Valid() && fresh(manager.created - old(manager.created))
      ensures peers == if received.Some? then WithSelf(received.value) else old(peers)
      ensures if list.None? then !ok && manager.View() == old(manager.View())
              else ok == Sync(old(manager.View()), list.value, Role()).1 &&
                   manager.View() == Sync(old(manager.View()), list.value, Role()).0
    {
      if received.Some? {
        peers := WithSelf(received.value);
      }
      if list.None? {
        return false;
      }
      ok := PeersSync(list.value);
    }
  }
}
