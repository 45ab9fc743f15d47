/** All Rancher servers together: each has a peer manager, a channel of notifications on their way to its
    controller, the peer list its controller works with, and its cluster records. Any server may take any
    enabled action at any time. */
module Fleet {
  import opened Basics
  import opened Ordering
  import opened Seqs
  import opened ClusterManagement
  import opened PeerManagement
  import opened Sets
  import opened UserControllers

  datatype Server = Server(
    peering: PeerManagement.State,
    inbox: seq<Peers>,
    view: Peers,
    table: Table)

  type Servers = map<string, Server>

  datatype Action =
    | Endpoints(endpoints: PeerManagement.Endpoints, message: Peers)
    | Elect(message: Peers)
    | Deliver(visits: seq<Visit>)
    | Resync(visits: seq<Visit>)
    | Read(name: string, cache: map<string, Cluster>, outside: Outside)

  /** Everything outside works: the cluster can be connected to, responds, and its controllers start. */
  const WORKING := Outside(true, true, Synced, None)

  function Fresh(id: string, token: string): Server {
    Server(PeerManagement.Initial(id, token), [], Peers(id, [], false, false), map[])
  }

  ghost function Peered(s: PeerManagement.State, a: Action): PeerManagement.State
    requires a.Endpoints? || a.Elect?
  {
    PeerManagement.Step(s, if a.Endpoints? then EndpointsChanged(a.endpoints) else Elected)
  }

  ghost predicate Enabled(s: Server, a: Action) {
    match a
    case Endpoints(e, m) => |Addresses(e)| < PEER_LIMIT - 1 && Describes(m, Peered(s.peering, a))
    case Elect(m) => Describes(m, Peered(s.peering, a))
    case Deliver(_) => s.inbox != []
    case Resync(_) => true
    case Read(_, _, _) => true
  }

  ghost function Role(s: Server, checksum: Checksum): string -> bool
    requires |s.view.ids| < PEER_LIMIT
  {
    RoleIn(true, s.view, checksum)
  }

  /** A notification in flight lists other servers, each once. */
  ghost predicate SoundMessage(m: Peers, selfID: string) {
    && m.selfID == selfID
    && Distinct(m.ids)
    && selfID !in m.ids
    && |m.ids| < PEER_LIMIT - 1
  }

  /** The controller's peer list is sorted, free of duplicates and includes the server, unless nothing arrived yet. */
  ghost predicate SoundView(p: Peers, selfID: string) {
    && p.selfID == selfID
    && |p.ids| < PEER_LIMIT
    && Sorted(p.ids)
    && Distinct(p.ids)
    && (p.ids != [] ==> selfID in p.ids)
    && (p.ready ==> p.ids != [])
  }

  ghost predicate Sound(s: Server) {
    && Consistent(s.peering)
    && |s.peering.peers| < PEER_LIMIT - 1
    && (forall m :: m in s.inbox ==> SoundMessage(m, s.peering.selfID))
    && SoundView(s.view, s.peering.selfID)
    && WellKeyed(s.table)
  }

  lemma InboxBound(s: Server)
    requires Sound(s) && s.inbox != []
    ensures SoundView(WithSelf(s.inbox[0]), s.peering.selfID)
  {
    var m := s.inbox[0];
    assert SoundMessage(m, s.peering.selfID);
    var all, members := m.ids + [m.selfID], (set x | x in m.ids) + {m.selfID};
    assert Enumerates(all, members);
    SortEnumerates(all, members);
    SortCorrect(all);
    EnumerationSize(all, members);
    EnumerationSize(Sort(all), members);
  }

  ghost function Act(s: Server, a: Action, checksum: Checksum): Server
    requires Sound(s) && Enabled(s, a)
  {
    match a
    case Endpoints(_, m) => s.(peering := Peered(s.peering, a), inbox := s.inbox + [m])
    case Elect(m) =>
      if s.peering.leader then s else s.(peering := Peered(s.peering, a), inbox := s.inbox + [m])
    case Deliver(visits) =>
      InboxBound(s);
      var view := WithSelf(s.inbox[0]);
      s.(inbox := s.inbox[1..], view := view, table := Sync(s.table, visits, RoleIn(true, view, checksum)).0)
    case Resync(visits) => s.(table := Sync(s.table, visits, Role(s, checksum)).0)
    case Read(name, cache, o) => s.(table := UserContext(s.table, name, cache, o).0)
  }

  lemma MessageSound(m: Peers, s: PeerManagement.State)
    requires Describes(m, s) && Consistent(s) && |s.peers| < PEER_LIMIT - 1
    ensures SoundMessage(m, s.selfID)
  {
    EnumerationSize(m.ids, s.peers);
  }

  /** Every action keeps a server sound and leaves its identity alone. */
  lemma ActSound(s: Server, a: Action, checksum: Checksum)
    requires Sound(s) && Enabled(s, a)
    ensures Sound(Act(s, a, checksum))
    ensures Act(s, a, checksum).peering.selfID == s.peering.selfID
    ensures s.peering.leader ==> Act(s, a, checksum).peering.leader
  {
    match a
    case Endpoints(e, m) =>
      SubsetSize(Addresses(e) - {s.peering.selfID}, Addresses(e));
      MessageSound(m, Peered(s.peering, a));
    case Elect(m) => MessageSound(m, Peered(s.peering, a));
    case Deliver(_) => InboxBound(s);
    case Resync(_) =>
    case Read(_, _, _) =>
  }

  // ---------- Runs of the whole fleet ----------

  datatype Event = Event(server: string, action: Action)

  ghost predicate FleetSound(f: Servers) {
    forall id :: id in f ==> Sound(f[id]) && f[id].peering.selfID == id
  }

  ghost predicate Possible(f: Servers, e: Event) {
    e.server in f && Sound(f[e.server]) && Enabled(f[e.server], e.action)
  }

  ghost function Next(f: Servers, e: Event, checksum: Checksum): Servers
    requires Possible(f, e)
  {
    f[e.server := Act(f[e.server], e.action, checksum)]
  }

  ghost predicate IsRun(f: Servers, events: seq<Event>, checksum: Checksum)
    decreases |events|
  {
    events == [] || (Possible(f, events[0]) && IsRun(Next(f, events[0], checksum), events[1..], checksum))
  }

  ghost function After(f: Servers, events: seq<Event>, checksum: Checksum): Servers
    requires IsRun(f, events, checksum)
    decreases |events|
  {
    if events == [] then f else After(Next(f, events[0], checksum), events[1..], checksum)
  }

  lemma StartsSound(f: Servers)
    requires forall id :: id in f ==> f[id] == Fresh(id, f[id].peering.token)
    ensures FleetSound(f)
  {
  }

  lemma NextSound(f: Servers, e: Event, checksum: Checksum)
    requires FleetSound(f) && Possible(f, e)
    ensures FleetSound(Next(f, e, checksum)) && Next(f, e, checksum).Keys == f.Keys
  {
    ActSound(f[e.server], e.action, checksum);
  }

  /** Whatever the servers do, every one of them keeps a sorted, duplicate-free peer list that includes itself,
      its tunnel peers stay in step, and its records stay under their own UIDs. */
  lemma {:induction false} RunSound(f: Servers, events: seq<Event>, checksum: Checksum)
    requires FleetSound(f) && IsRun(f, events, checksum)
    ensures FleetSound(After(f, events, checksum)) && After(f, events, checksum).Keys == f.Keys
    decreases |events|
  {
    if events != [] {
      NextSound(f, events[0], checksum);
      RunSound(Next(f, events[0], checksum), events[1..], checksum);
    }
  }

  // ---------- Ownership ----------

  /** The controller last received a ready view with these members. */
  ghost predicate HasView(p: Peers, members: set<string>) {
    p.ready && (set x | x in p.ids) == members
  }

  /** Every controller last received a ready view whose members are the servers of this fleet. */
  ghost predicate Agreed(f: Servers) {
    forall id :: id in f ==> HasView(f[id].view, f.Keys)
  }

  ghost function Views(f: Servers): map<string, Peers> {
    map id | id in f :: f[id].view
  }

  lemma AgreedSeesFleet(p: Peers, id: string, members: set<string>)
    requires SoundView(p, id) && HasView(p, members)
    ensures SeesFleet(p, members) && p.selfID == id
  {
    forall x ensures x in p.ids <==> x in members {
      assert x in p.ids <==> x in set y | y in p.ids;
    }
  }

  lemma AgreedIsOneFleet(f: Servers)
    requires FleetSound(f) && Agreed(f)
    ensures Views(f).Keys == f.Keys && OneFleet(Views(f))
  {
    forall id | id in f ensures SeesFleet(f[id].view, f.Keys) && f[id].view.selfID == id {
      AgreedSeesFleet(f[id].view, id, f.Keys);
    }
  }

  /** How a server comes to agree: an endpoint update that lists the whole fleet, the server included, is
      announced by a message that, once delivered, is a ready view of exactly that fleet. */
  lemma UpdateBringsAgreement(s: Server, e: PeerManagement.Endpoints, m: Peers)
    requires Sound(s) && Enabled(s, Endpoints(e, m)) && s.peering.selfID in Addresses(e)
    ensures HasView(WithSelf(m), Addresses(e))
  {
    var after := Peered(s.peering, Endpoints(e, m));
    WithSelfSeesFleet(m, after);
    EnumeratedSet(WithSelf(m).ids, after.peers + {s.peering.selfID});
    assert after.peers + {s.peering.selfID} == Addresses(e);
  }

  /** This server's controllers for the cluster run, as owner. */
  ghost predicate Owns(f: Servers, id: string, uid: string)
    requires id in f
  {
    uid in f[id].table && f[id].table[uid].started && f[id].table[uid].owner
  }

  /** This server's controllers for the cluster run, as follower. */
  ghost predicate Follows(f: Servers, id: string, uid: string)
    requires id in f
  {
    uid in f[id].table && f[id].table[uid].started && !f[id].table[uid].owner
  }

  /** The server does not run the cluster in a role its view does not give it. */
  ghost predicate AgreesOn(s: Server, uid: string, checksum: Checksum) {
    |s.view.ids| < PEER_LIMIT && RoleAgrees(s.table, uid, Role(s, checksum)(uid))
  }

  /** The server runs the cluster in the role its view gives it, with the connection data of `now`. */
  ghost predicate RestsOn(s: Server, uid: string, now: Cluster, checksum: Checksum) {
    |s.view.ids| < PEER_LIMIT && InPlace(s.table, uid, now, Role(s, checksum)(uid))
  }

  /** Of two or more servers only `owner` may own the cluster; a server that is alone may own it as leader. */
  ghost predicate MayOwn(f: Servers, id: string, owner: string)
    requires id in f
  {
    id == owner && (|f.Keys| == 1 ==> f[id].view.leader)
  }

  ghost predicate OwnedAtMostBy(f: Servers, owner: string, uid: string) {
    owner in f && forall id :: id in f && Owns(f, id, uid) ==> MayOwn(f, id, owner)
  }

  /** The cluster is owned by the server that may own it and followed by all others. */
  ghost predicate OwnedExactlyBy(f: Servers, owner: string, uid: string) {
    owner in f && forall id :: id in f ==> if MayOwn(f, id, owner) then Owns(f, id, uid) else Follows(f, id, uid)
  }

  /** The views give the cluster to this server and to no other. */
  ghost predicate HasRole(f: Servers, uid: string, owner: string, checksum: Checksum)
    requires FleetSound(f)
  {
    owner in f && forall id :: id in f ==> (Role(f[id], checksum)(uid) <==> MayOwn(f, id, owner))
  }

  lemma AloneRole(p: Peers, id: string, uid: string, checksum: Checksum)
    requires SoundView(p, id) && HasView(p, {id})
    ensures RoleIn(true, p, checksum)(uid) <==> p.leader
  {
    AgreedSeesFleet(p, id, {id});
    EnumerationSize(p.ids, {id});
    assert p.ids[0] in p.ids;
    assert p.ids == [id];
    LoneServer(p, uid, checksum);
  }

  lemma AloneFleet(f: Servers, owner: string, uid: string, checksum: Checksum)
    requires FleetSound(f) && Agreed(f) && f.Keys == {owner}
    ensures HasRole(f, uid, owner, checksum)
  {
    AloneRole(f[owner].view, owner, uid, checksum);
  }

  lemma ManyRoles(f: Servers, uid: string, checksum: Checksum) returns (owner: string)
    requires FleetSound(f) && Agreed(f) && 2 <= |f.Keys| < PEER_LIMIT
    ensures HasRole(f, uid, owner, checksum)
  {
    AgreedIsOneFleet(f);
    owner := UniqueOwner(Views(f), uid, checksum);
    forall id | id in f ensures Role(f[id], checksum)(uid) <==> MayOwn(f, id, owner) {
      assert Claims(Views(f), id, uid, checksum) <==> id == owner;
    }
  }

  /** In a fleet that agrees, the views give the cluster to one server: in a fleet of two or more to the same one for
      all, and to a server that is alone exactly when it is leader. */
  lemma OneRole(f: Servers, uid: string, checksum: Checksum) returns (owner: string)
    requires FleetSound(f) && Agreed(f) && 1 <= |f.Keys| < PEER_LIMIT
    ensures HasRole(f, uid, owner, checksum)
  {
    if |f.Keys| == 1 {
      owner := OneElement(f.Keys);
      AloneFleet(f, owner, uid, checksum);
    } else {
      owner := ManyRoles(f, uid, checksum);
    }
  }

  /** When no server runs a cluster in a role its view does not give it, at most one server owns it. */
  lemma AtMostOneOwner(f: Servers, uid: string, owner: string, checksum: Checksum)
    requires FleetSound(f) && HasRole(f, uid, owner, checksum)
    requires forall id :: id in f ==> AgreesOn(f[id], uid, checksum)
    ensures OwnedAtMostBy(f, owner, uid)
  {
  }

  /** When every server runs the cluster in the role its view gives it, exactly one server owns it and all others follow
      it; a server that is alone owns it exactly when it is leader. */
  lemma ExactlyOneOwner(f: Servers, uid: string, now: Cluster, owner: string, checksum: Checksum)
    requires FleetSound(f) && HasRole(f, uid, owner, checksum)
    requires forall id :: id in f ==> RestsOn(f[id], uid, now, checksum)
    ensures OwnedExactlyBy(f, owner, uid)
  {
  }

  // ---------- Calm stretches: the members of the fleet no longer change ----------

  /** What an action has to say about a cluster: `setPeers` and the resynchronisation both run `peersSync`. */
  function Says(a: Action, uid: string): Word {
    if a.Deliver? || a.Resync? then LastWord(a.visits, uid) else Silent
  }

  /** As far as the cluster goes, an action is calm if it does not start it in the role of another one, listed under the
      same name, and if a view it delivers has the same members. A server that is alone may be told that it is leader
      now, and then the synchronisation has to reach the cluster. */
  ghost predicate CalmFor(s: Server, a: Action, uid: string, members: set<string>) {
    && (Says(a, uid).Asked? ==> Says(a, uid).via == uid)
    && (a.Deliver? && s.inbox != [] ==>
          var view := WithSelf(s.inbox[0]);
          HasView(view, members) && (|members| == 1 && view.leader != s.view.leader ==> !Says(a, uid).Silent?))
  }

  predicate Keeps(word: Word, now: Cluster) {
    !word.Dropped? && (word.Asked? ==> SameConnection(word.now, now))
  }

  /** The action does not drop the cluster, does not find it in the cache with other connection data than those of
      `now`, and the API, asked for another cluster, does not answer with this one. */
  ghost predicate Steady(a: Action, uid: string, now: Cluster) {
    match a
    case Endpoints(_, _) => true
    case Elect(_) => true
    case Deliver(_) => Keeps(Says(a, uid), now)
    case Resync(_) => Keeps(Says(a, uid), now)
    case Read(name, cache, o) =>
      name in cache ==>
        if cache[name].uid == uid then SameConnection(cache[name], now)
        else o.stored.Some? ==> o.stored.value.uid != uid
  }

  predicate Reads(a: Action, uid: string) {
    a.Read? && a.name in a.cache && a.cache[a.name].uid == uid
  }

  ghost function ViewAfter(s: Server, a: Action): Peers
    requires Enabled(s, a)
  {
    if a.Deliver? then WithSelf(s.inbox[0]) else s.view
  }

  ghost predicate Failed(s: Server, a: Action, checksum: Checksum) {
    Sound(s) && Enabled(s, a) && (a.Deliver? || a.Resync?) &&
    (if a.Deliver? then InboxBound(s); true else true) &&
    !Sync(s.table, a.visits, RoleIn(true, ViewAfter(s, a), checksum)).1
  }

  lemma ReadIsLocal(t: Table, name: string, cache: map<string, Cluster>, o: Outside, uid: string)
    requires WellKeyed(t) && (name in cache ==> uid != cache[name].uid)
    ensures var next := UserContext(t, name, cache, o).0;
            UserControllers.NotAdded(t, next, uid) &&
            ((o.stored.Some? ==> o.stored.value.uid != uid) ==> Unchanged(t, next, uid))
  {
  }

  /** Two views of one fleet of two or more give a server the same roles. */
  lemma SameRole(p: Peers, q: Peers, id: string, members: set<string>, uid: string, checksum: Checksum)
    requires SoundView(p, id) && SoundView(q, id) && HasView(p, members) && HasView(q, members) &&
             2 <= |members| < PEER_LIMIT
    ensures RoleIn(true, p, checksum)(uid) == RoleIn(true, q, checksum)(uid)
  {
    AgreedSeesFleet(p, id, members);
    AgreedSeesFleet(q, id, members);
    AgreeOnOwner(p, q, members, uid, checksum);
    AgreeOnOwner(q, q, members, uid, checksum);
  }

  /** Two views of a fleet give a server the same roles, unless it is alone and became leader or ceased to be. */
  lemma RoleStays(p: Peers, q: Peers, id: string, members: set<string>, uid: string, checksum: Checksum)
    requires SoundView(p, id) && SoundView(q, id) && HasView(p, members) && HasView(q, members) &&
             1 <= |members| < PEER_LIMIT
    requires |members| == 1 ==> p.leader == q.leader
    ensures RoleIn(true, p, checksum)(uid) == RoleIn(true, q, checksum)(uid)
  {
    if |members| == 1 {
      var one := OneElement(members);
      assert id in p.ids && id in members && members == {id};
      AloneRole(p, id, uid, checksum);
      AloneRole(q, id, uid, checksum);
    } else {
      SameRole(p, q, id, members, uid, checksum);
    }
  }

  /** The view after a calm action has the same members, and gives the server the same role unless the action reaches
      the cluster. */
  lemma CalmView(s: Server, a: Action, uid: string, members: set<string>, checksum: Checksum)
    requires Sound(s) && Enabled(s, a) && CalmFor(s, a, uid, members) && HasView(s.view, members)
    requires 1 <= |members| < PEER_LIMIT
    ensures SoundView(ViewAfter(s, a), s.peering.selfID) && HasView(ViewAfter(s, a), members)
    ensures Act(s, a, checksum).view == ViewAfter(s, a)
    ensures Says(a, uid).Silent? ==> RoleIn(true, ViewAfter(s, a), checksum)(uid) == Role(s, checksum)(uid)
  {
    if a.Deliver? {
      InboxBound(s);
      if Says(a, uid).Silent? {
        RoleStays(ViewAfter(s, a), s.view, s.peering.selfID, members, uid, checksum);
      }
    }
  }

  /** How one server stands with one cluster: it has a view of the fleet, runs the cluster in no other role than its
      view gives it, runs it in that role with current connection data, does not run it, and has no record of it. */
  datatype Standing = Standing(informed: bool, agrees: bool, rests: bool, idle: bool, absent: bool)

  ghost function StandingOf(s: Server, uid: string, now: Cluster, members: set<string>, checksum: Checksum): Standing {
    Standing(HasView(s.view, members), AgreesOn(s, uid, checksum), RestsOn(s, uid, now, checksum),
             uid !in s.table || !s.table[uid].started, uid !in s.table)
  }

  /** What a stretch of a run holds for one server and one cluster: the server reaches it; all goes well and it is kept;
      nobody asks for it; nobody reads it. */
  datatype Mark = Mark(reached: bool, well: bool, unasked: bool, unread: bool)

  /** Reaching a cluster gives it the role of the view, puts it in place if all goes well, stops it if nobody asks for
      it, and leaves no record of it if nobody reads it either; and nothing undoes that. */
  predicate Progress(a: Standing, b: Standing, m: Mark) {
    && b.informed
    && (m.reached || a.agrees ==> b.agrees)
    && (m.well && (m.reached || a.rests) ==> b.rests)
    && (m.unasked && (m.reached || a.idle) ==> b.idle)
    && (m.unasked && m.unread && (m.reached || a.absent) ==> b.absent)
  }

  /** Progress of one server with one cluster. */
  ghost predicate Advances(s: Server, t: Server, m: Mark, uid: string, now: Cluster, members: set<string>,
                           checksum: Checksum)
  {
    Progress(StandingOf(s, uid, now, members, checksum), StandingOf(t, uid, now, members, checksum), m)
  }

  function Both(m: Mark, n: Mark): Mark {
    Mark(m.reached || n.reached, m.well && n.well, m.unasked && n.unasked, m.unread && n.unread)
  }

  lemma Chain(s: Server, t: Server, u: Server, m: Mark, n: Mark, uid: string, now: Cluster, members: set<string>,
              checksum: Checksum)
    requires Advances(s, t, m, uid, now, members, checksum) && Advances(t, u, n, uid, now, members, checksum)
    ensures Advances(s, u, Both(m, n), uid, now, members, checksum)
  {
  }

  ghost function MarkOf(s: Server, a: Action, uid: string, now: Cluster, checksum: Checksum): Mark {
    Mark(!Says(a, uid).Silent?, Steady(a, uid, now) && !Failed(s, a, checksum), !Says(a, uid).Asked?, !Reads(a, uid))
  }

  lemma CalmSync(s: Server, a: Action, uid: string, now: Cluster, members: set<string>, checksum: Checksum)
    requires Sound(s) && Enabled(s, a) && (a.Deliver? || a.Resync?) && CalmFor(s, a, uid, members)
    requires SoundView(ViewAfter(s, a), s.peering.selfID) && HasView(ViewAfter(s, a), members)
    requires Act(s, a, checksum).view == ViewAfter(s, a)
    requires Says(a, uid).Silent? ==> RoleIn(true, ViewAfter(s, a), checksum)(uid) == Role(s, checksum)(uid)
    ensures Advances(s, Act(s, a, checksum), MarkOf(s, a, uid, now, checksum), uid, now, members, checksum)
  {
    if a.Deliver? {
      InboxBound(s);
    }
    SyncOn(s.table, a.visits, RoleIn(true, ViewAfter(s, a), checksum), uid);
  }

  lemma CalmRead(s: Server, a: Action, uid: string, now: Cluster, members: set<string>, checksum: Checksum)
    requires Sound(s) && Enabled(s, a) && a.Read? && HasView(s.view, members)
    ensures Advances(s, Act(s, a, checksum), MarkOf(s, a, uid, now, checksum), uid, now, members, checksum)
  {
    if !Reads(a, uid) {
      ReadIsLocal(s.table, a.name, a.cache, a.outside, uid);
    }
  }

  /** What a calm action does to one cluster. */
  lemma CalmAct(s: Server, a: Action, uid: string, now: Cluster, members: set<string>, checksum: Checksum)
    requires Sound(s) && Enabled(s, a) && CalmFor(s, a, uid, members) && HasView(s.view, members)
    requires 1 <= |members| < PEER_LIMIT
    ensures Sound(Act(s, a, checksum))
    ensures Advances(s, Act(s, a, checksum), MarkOf(s, a, uid, now, checksum), uid, now, members, checksum)
  {
    ActSound(s, a, checksum);
    CalmView(s, a, uid, members, checksum);
    if a.Deliver? || a.Resync? {
      CalmSync(s, a, uid, now, members, checksum);
    } else if a.Read? {
      CalmRead(s, a, uid, now, members, checksum);
    }
  }

  /** All events of the run are calm as far as the cluster goes. */
  ghost predicate IsCalm(f: Servers, events: seq<Event>, uid: string, checksum: Checksum)
    requires IsRun(f, events, checksum)
    decreases |events|
  {
    events == [] ||
    (CalmFor(f[events[0].server], events[0].action, uid, f.Keys) &&
     IsCalm(Next(f, events[0], checksum), events[1..], uid, checksum))
  }

  /** The marks of the single steps put together, as the server `id` sees them. */
  ghost function MarkOfRun(f: Servers, events: seq<Event>, id: string, uid: string, now: Cluster,
                           checksum: Checksum): Mark
    requires IsRun(f, events, checksum)
    decreases |events|
  {
    if events == [] then Mark(false, true, true, true)
    else
      var m := MarkOf(f[events[0].server], events[0].action, uid, now, checksum);
      Both(m.(reached := events[0].server == id && m.reached),
           MarkOfRun(Next(f, events[0], checksum), events[1..], id, uid, now, checksum))
  }

  lemma Idle(s: Server, m: Mark, uid: string, now: Cluster, members: set<string>, checksum: Checksum)
    requires HasView(s.view, members)
    ensures Advances(s, s, m.(reached := false), uid, now, members, checksum)
  {
  }

  lemma StillAgreed(f: Servers, id: string, s: Server)
    requires Agreed(f) && id in f && HasView(s.view, f.Keys)
    ensures f[id := s].Keys == f.Keys && Agreed(f[id := s])
  {
    assert f[id := s].Keys == f.Keys;
  }

  /** What the step does to any server of the fleet. */
  lemma CalmNext(f: Servers, e: Event, uid: string, now: Cluster, id: string, checksum: Checksum)
    requires FleetSound(f) && Agreed(f) && 1 <= |f.Keys| < PEER_LIMIT && id in f
    requires Possible(f, e) && CalmFor(f[e.server], e.action, uid, f.Keys)
    ensures FleetSound(Next(f, e, checksum)) && Next(f, e, checksum).Keys == f.Keys && Agreed(Next(f, e, checksum))
    ensures var m := MarkOf(f[e.server], e.action, uid, now, checksum);
            Advances(f[id], Next(f, e, checksum)[id], m.(reached := e.server == id && m.reached), uid, now, f.Keys,
                     checksum)
  {
    NextSound(f, e, checksum);
    CalmAct(f[e.server], e.action, uid, now, f.Keys, checksum);
    StillAgreed(f, e.server, Act(f[e.server], e.action, checksum));
    if id != e.server {
      Idle(f[id], MarkOf(f[e.server], e.action, uid, now, checksum), uid, now, f.Keys, checksum);
    }
  }

  /** A calm run, seen from one server: once it has reached the cluster, nothing undoes what that achieved. */
  lemma {:induction false} CalmRun(f: Servers, events: seq<Event>, uid: string, now: Cluster, id: string,
                                   checksum: Checksum)
    requires FleetSound(f) && Agreed(f) && 1 <= |f.Keys| < PEER_LIMIT && id in f
    requires IsRun(f, events, checksum) && IsCalm(f, events, uid, checksum)
    ensures FleetSound(After(f, events, checksum)) && id in After(f, events, checksum)
    ensures Advances(f[id], After(f, events, checksum)[id], MarkOfRun(f, events, id, uid, now, checksum), uid, now,
                     f.Keys, checksum)
    decreases |events|
  {
    if events != [] {
      var e, f1 := events[0], Next(f, events[0], checksum);
      CalmNext(f, e, uid, now, id, checksum);
      CalmRun(f1, events[1..], uid, now, id, checksum);
      var m := MarkOf(f[e.server], e.action, uid, now, checksum);
      Chain(f[id], f1[id], After(f1, events[1..], checksum)[id], m.(reached := e.server == id && m.reached),
            MarkOfRun(f1, events[1..], id, uid, now, checksum), uid, now, f.Keys, checksum);
    }
  }

  ghost predicate AllSteady(events: seq<Event>, uid: string, now: Cluster) {
    forall i :: 0 <= i < |events| ==> Steady(events[i].action, uid, now)
  }

  ghost predicate NeverAsked(events: seq<Event>, uid: string) {
    forall i :: 0 <= i < |events| ==> !Says(events[i].action, uid).Asked?
  }

  ghost predicate NoReads(events: seq<Event>, uid: string) {
    forall i :: 0 <= i < |events| ==> !Reads(events[i].action, uid)
  }

  /** The server reaches the cluster at least once in the run: it finds it eligible and in the cache, or not
      eligible. */
  ghost predicate ReachedBy(events: seq<Event>, id: string, uid: string) {
    exists i :: 0 <= i < |events| && events[i].server == id && !Says(events[i].action, uid).Silent?
  }

  /** No synchronisation of the run reports an error. */
  ghost predicate NoFailure(f: Servers, events: seq<Event>, checksum: Checksum)
    requires IsRun(f, events, checksum)
    decreases |events|
  {
    events == [] ||
    (!Failed(f[events[0].server], events[0].action, checksum) &&
     NoFailure(Next(f, events[0], checksum), events[1..], checksum))
  }

  lemma ReachedUnfold(events: seq<Event>, id: string, uid: string)
    requires events != [] && ReachedBy(events, id, uid)
    ensures (events[0].server == id && !Says(events[0].action, uid).Silent?) || ReachedBy(events[1..], id, uid)
  {
    var i :| 0 <= i < |events| && events[i].server == id && !Says(events[i].action, uid).Silent?;
    if i > 0 {
      assert events[1..][i - 1] == events[i];
    }
  }

  /** What a run holds for a cluster, all servers taken together. */
  ghost predicate GoesWell(f: Servers, events: seq<Event>, uid: string, now: Cluster, checksum: Checksum)
    requires IsRun(f, events, checksum)
  {
    AllSteady(events, uid, now) && NoFailure(f, events, checksum)
  }

  lemma Tails(events: seq<Event>, uid: string, now: Cluster)
    requires events != []
    ensures AllSteady(events, uid, now) ==> Steady(events[0].action, uid, now) && AllSteady(events[1..], uid, now)
    ensures NeverAsked(events, uid) ==> !Says(events[0].action, uid).Asked? && NeverAsked(events[1..], uid)
    ensures NoReads(events, uid) ==> !Reads(events[0].action, uid) && NoReads(events[1..], uid)
  {
    assert forall i :: 0 <= i < |events| - 1 ==> events[1..][i] == events[i + 1];
  }

  lemma {:induction false} MarkOfRunIs(f: Servers, events: seq<Event>, id: string, uid: string, now: Cluster,
                                       checksum: Checksum)
    requires IsRun(f, events, checksum)
    ensures var m := MarkOfRun(f, events, id, uid, now, checksum);
            && (ReachedBy(events, id, uid) ==> m.reached)
            && (GoesWell(f, events, uid, now, checksum) ==> m.well)
            && (NeverAsked(events, uid) ==> m.unasked)
            && (NoReads(events, uid) ==> m.unread)
    decreases |events|
  {
    if events != [] {
      MarkOfRunIs(Next(f, events[0], checksum), events[1..], id, uid, now, checksum);
      Tails(events, uid, now);
      if ReachedBy(events, id, uid) {
        ReachedUnfold(events, id, uid);
      }
    }
  }

  /** What a calm run in which every server reaches the cluster leads to. */
  ghost predicate Converged(g: Servers, well: bool, unasked: bool, unread: bool, uid: string, owner: string) {
    && OwnedAtMostBy(g, owner, uid)
    && (well ==> OwnedExactlyBy(g, owner, uid))
    && (unasked ==> forall id :: id in g ==> !Owns(g, id, uid) && !Follows(g, id, uid))
    && (unasked && unread ==> forall id :: id in g ==> uid !in g[id].table)
  }

  predicate StandsWell(s: Standing, well: bool, unasked: bool, unread: bool) {
    s.informed && s.agrees && (well ==> s.rests) && (unasked ==> s.idle) && (unasked && unread ==> s.absent)
  }

  /** Every server stands as it should. */
  ghost predicate Standings(g: Servers, well: bool, unasked: bool, unread: bool, uid: string, now: Cluster,
                            checksum: Checksum)
  {
    forall id :: id in g ==> StandsWell(StandingOf(g[id], uid, now, g.Keys, checksum), well, unasked, unread)
  }

  lemma SettledFleet(g: Servers, well: bool, unasked: bool, unread: bool, uid: string, now: Cluster, checksum: Checksum)
      returns (owner: string)
    requires FleetSound(g) && 1 <= |g.Keys| < PEER_LIMIT && Standings(g, well, unasked, unread, uid, now, checksum)
    ensures Converged(g, well, unasked, unread, uid, owner)
  {
    forall id | id in g
      ensures HasView(g[id].view, g.Keys) && AgreesOn(g[id], uid, checksum)
      ensures well ==> RestsOn(g[id], uid, now, checksum)
      ensures unasked ==> uid !in g[id].table || !g[id].table[uid].started
      ensures unasked && unread ==> uid !in g[id].table
    {
      assert StandsWell(StandingOf(g[id], uid, now, g.Keys, checksum), well, unasked, unread);
    }
    owner := OneRole(g, uid, checksum);
    AtMostOneOwner(g, uid, owner, checksum);
    if well {
      ExactlyOneOwner(g, uid, now, owner, checksum);
    }
  }

  /** From any sound fleet whose controllers agree. */
  lemma CalmConverges(f: Servers, calm: seq<Event>, uid: string, now: Cluster, checksum: Checksum)
      returns (owner: string)
    requires FleetSound(f) && Agreed(f) && 1 <= |f.Keys| < PEER_LIMIT
    requires IsRun(f, calm, checksum) && IsCalm(f, calm, uid, checksum)
    requires forall id :: id in f ==> ReachedBy(calm, id, uid)
    ensures Converged(After(f, calm, checksum), GoesWell(f, calm, uid, now, checksum), NeverAsked(calm, uid),
                      NoReads(calm, uid),
                      uid, owner)
  {
    RunSound(f, calm, checksum);
    var g := After(f, calm, checksum);
    var well, unasked, unread := GoesWell(f, calm, uid, now, checksum), NeverAsked(calm, uid), NoReads(calm, uid);
    forall id | id in g ensures StandsWell(StandingOf(g[id], uid, now, g.Keys, checksum), well, unasked, unread) {
      CalmRun(f, calm, uid, now, id, checksum);
      MarkOfRunIs(f, calm, id, uid, now, checksum);
    }
    owner := SettledFleet(g, well, unasked, unread, uid, now, checksum);
  }

  /** The main result. From servers as they start, after any run that ends with every controller holding a ready view of
      this fleet, let the servers go on in any interleaving, with endpoint updates, elections, deliveries,
      synchronisations, reads and failures, as long as the members stay the same, no server last starts the cluster in
      the role of another one that was listed under its name, and each server at least once reaches the cluster: it
      finds it eligible and in its cache, or not eligible. The cluster's connection data, and whether it is eligible,
      may change all the time.

      Then no two servers own the cluster, and a server that is alone does not own it unless it is leader. If nothing
      failed and the cluster stayed eligible with the same connection data, it has exactly one owner and every other
      server follows it; a server that is alone owns it exactly when it is leader. If no server found it eligible, no
      server runs controllers for it, and if nobody read it either, no server has a record of it. */
  lemma OwnershipConverges(start: Servers, events: seq<Event>, calm: seq<Event>, uid: string, now: Cluster,
                           checksum: Checksum)
      returns (owner: string)
    requires forall id :: id in start ==> start[id] == Fresh(id, start[id].peering.token)
    requires IsRun(start, events, checksum) && Agreed(After(start, events, checksum)) && 1 <= |start.Keys| < PEER_LIMIT
    requires IsRun(After(start, events, checksum), calm, checksum) &&
             IsCalm(After(start, events, checksum), calm, uid, checksum)
    requires forall id :: id in start ==> ReachedBy(calm, id, uid)
    ensures var f := After(start, events, checksum);
            Converged(After(f, calm, checksum), GoesWell(f, calm, uid, now, checksum), NeverAsked(calm, uid),
                      NoReads(calm, uid),
                      uid, owner)
  {
    StartsSound(start);
    RunSound(start, events, checksum);
    owner := CalmConverges(After(start, events, checksum), calm, uid, now, checksum);
  }

  /** Why the cluster has to be in the cache: a server whose cache has lost an eligible cluster is left as it is by a
      synchronisation that lists it, which fails. Two servers that own the cluster then go on owning it. */
  lemma LostClusterStays(f: Servers, id: string, c: Cluster, o: Outside, checksum: Checksum)
    requires FleetSound(f) && id in f && Eligible(c)
    ensures var e := Event(id, Resync([Visit(c, map[], o)]));
            Possible(f, e) && Next(f, e, checksum) == f && Failed(f[id], e.action, checksum)
  {
    var role := Role(f[id], checksum);
    assert [Visit(c, map[], o)][..0] == [];
    assert Sync(f[id].table, [Visit(c, map[], o)], role) == (f[id].table, false);
    assert f[id := f[id]] == f;
  }

  /** Why no server may start the cluster in the role of another one: two servers that list a cluster whose name their
      caches then have under a new UID start the new one in their roles for the old one. */
  lemma RecreatedClusterStarts(f: Servers, id: string, c: Cluster, uid: string, checksum: Checksum)
    requires FleetSound(f) && id in f && Eligible(c) && Reachable(c) && uid != c.uid
    ensures var e := Event(id, Resync([Visit(c, map[c.name := c.(uid := uid)], WORKING)]));
            Possible(f, e) && !Failed(f[id], e.action, checksum) &&
            (Owns(Next(f, e, checksum), id, uid) <==> Role(f[id], checksum)(c.uid))
  {
    var visits, role := [Visit(c, map[c.name := c.(uid := uid)], WORKING)], Role(f[id], checksum);
    assert visits[..0] == [];
    assert LastWord(visits, uid) == Asked(c.uid, c.(uid := uid));
    SyncOn(f[id].table, visits, role, uid);
  }

  // ---------- Runs that converge exist ----------

  ghost predicate AllReachable(clusters: seq<Cluster>) {
    forall c :: c in clusters && Eligible(c) ==> Reachable(c)
  }

  /** The listed clusters are in the cache as listed, and UIDs identify them. */
  ghost predicate Cached(clusters: seq<Cluster>, cache: map<string, Cluster>) {
    && (forall i :: 0 <= i < |clusters| ==> clusters[i].name in cache && cache[clusters[i].name] == clusters[i])
    && (forall i, j :: 0 <= i < j < |clusters| ==> clusters[i].uid != clusters[j].uid)
  }

  lemma AddressesOfOne(ids: seq<string>, members: set<string>)
    requires Enumerates(ids, members)
    ensures Addresses([ids]) == members
  {
    forall x | x in members ensures x in Addresses([ids]) {
      var j :| 0 <= j < |ids| && ids[j] == x;
      assert [ids][0][j] == x;
    }
  }

  lemma Prepend(f: Servers, e: Event, rest: seq<Event>, checksum: Checksum)
    requires Possible(f, e) && IsRun(Next(f, e, checksum), rest, checksum)
    ensures IsRun(f, [e] + rest, checksum)
    ensures After(f, [e] + rest, checksum) == After(Next(f, e, checksum), rest, checksum)
  {
    assert ([e] + rest)[0] == e && ([e] + rest)[1..] == rest;
  }

  /** A message that describes a server whose peers are all other members. */
  lemma Announcement(s: Server, members: set<string>) returns (e: PeerManagement.Endpoints, m: Peers)
    requires Sound(s) && s.peering.selfID in members && |members| < PEER_LIMIT - 1
    ensures Enabled(s, Endpoints(e, m)) && Addresses(e) == members
  {
    var all := ListSet(members);
    AddressesOfOne(all, members);
    var others := ListSet(members - {s.peering.selfID});
    e, m := [all], Peers(s.peering.selfID, others, true, s.peering.leader);
  }

  /** The next message delivered to a server with an empty inbox after an update is that update's. */
  lemma Informed(s: Server, e: PeerManagement.Endpoints, m: Peers, checksum: Checksum)
    requires Sound(s) && s.inbox == [] && Enabled(s, Endpoints(e, m)) && s.peering.selfID in Addresses(e)
    ensures var told := Act(s, Endpoints(e, m), checksum);
            Sound(told) && Enabled(told, Deliver([])) && HasView(Act(told, Deliver([]), checksum).view, Addresses(e))
  {
    ActSound(s, Endpoints(e, m), checksum);
    UpdateBringsAgreement(s, e, m);
  }

  ghost predicate Ready(f: Servers, todo: set<string>) {
    && todo <= f.Keys
    && (forall id :: id in f ==> if id in todo then f[id].inbox == [] else HasView(f[id].view, f.Keys))
  }

  lemma InformOne(f: Servers, todo: set<string>, id: string, e: PeerManagement.Endpoints, m: Peers, checksum: Checksum)
    requires FleetSound(f) && Ready(f, todo) && id in todo && Enabled(f[id], Endpoints(e, m)) && Addresses(e) == f.Keys
    ensures Possible(f, Event(id, Endpoints(e, m)))
    ensures var g := Next(f, Event(id, Endpoints(e, m)), checksum);
            && Possible(g, Event(id, Deliver([])))
            && FleetSound(Next(g, Event(id, Deliver([])), checksum))
            && Next(g, Event(id, Deliver([])), checksum).Keys == f.Keys
            && Ready(Next(g, Event(id, Deliver([])), checksum), todo - {id})
  {
    Informed(f[id], e, m, checksum);
    NextSound(f, Event(id, Endpoints(e, m)), checksum);
    var g := Next(f, Event(id, Endpoints(e, m)), checksum);
    NextSound(g, Event(id, Deliver([])), checksum);
  }

  /** Informing the servers one after the other brings the fleet to agreement. */
  lemma {:induction false} Inform(f: Servers, todo: set<string>, checksum: Checksum) returns (events: seq<Event>)
    requires FleetSound(f) && Ready(f, todo) && |f.Keys| < PEER_LIMIT - 1
    ensures IsRun(f, events, checksum) && Agreed(After(f, events, checksum))
    decreases todo
  {
    if todo == {} {
      return [];
    }
    var id :| id in todo;
    var e, m := Announcement(f[id], f.Keys);
    InformOne(f, todo, id, e, m, checksum);
    var announce, deliver := Event(id, Endpoints(e, m)), Event(id, Deliver([]));
    var g := Next(f, announce, checksum);
    var rest := Inform(Next(g, deliver, checksum), todo - {id}, checksum);
    Prepend(g, deliver, rest, checksum);
    Prepend(f, announce, [deliver] + rest, checksum);
    events := [announce] + ([deliver] + rest);
  }

  /** A synchronisation over what the cache has, when everything outside works. */
  ghost function WorkingVisits(clusters: seq<Cluster>, cache: map<string, Cluster>): seq<Visit> {
    seq(|clusters|, i requires 0 <= i < |clusters| => Visit(clusters[i], cache, WORKING))
  }

  predicate Works(v: Visit) {
    && v.listed.name in v.cache && v.cache[v.listed.name] == v.listed
    && (Eligible(v.listed) ==> Reachable(v.listed))
    && v.outside == WORKING
  }

  lemma {:induction false} WorkingSync(t: Table, visits: seq<Visit>, role: string -> bool)
    requires WellKeyed(t)
    requires forall i :: 0 <= i < |visits| ==> Works(visits[i])
    ensures Sync(t, visits, role).1
    decreases |visits|
  {
    if visits != [] {
      var k := |visits| - 1;
      WorkingSync(t, visits[..k], role);
      assert Works(visits[k]);
    }
  }

  /** Such a synchronisation reaches every listed cluster, calmly and steadily. */
  lemma CachedReaches(clusters: seq<Cluster>, cache: map<string, Cluster>, c: Cluster)
    requires Cached(clusters, cache) && c in clusters
    ensures LastWord(WorkingVisits(clusters, cache), c.uid) == if Eligible(c) then Asked(c.uid, c) else Dropped
  {
    var visits := WorkingVisits(clusters, cache);
    var j :| 0 <= j < |clusters| && clusters[j] == c;
    if LastWord(visits, c.uid).Silent? {
      NobodySpoke(visits, c.uid, j);
    } else {
      var i := SaidBy(visits, c.uid);
      assert visits[i] == Visit(clusters[i], cache, WORKING);
      assert cache[clusters[i].name] == clusters[i];
    }
  }

  /** When everything outside works, a server's synchronisation does not fail. */
  lemma WorkingResync(f: Servers, id: string, clusters: seq<Cluster>, cache: map<string, Cluster>, checksum: Checksum)
      returns (resync: Event)
    requires FleetSound(f) && id in f && Cached(clusters, cache) && AllReachable(clusters)
    ensures resync == Event(id, Resync(WorkingVisits(clusters, cache)))
    ensures Possible(f, resync) && !Failed(f[id], resync.action, checksum)
    ensures FleetSound(Next(f, resync, checksum)) && Next(f, resync, checksum).Keys == f.Keys
  {
    resync := Event(id, Resync(WorkingVisits(clusters, cache)));
    forall i | 0 <= i < |clusters| ensures Works(WorkingVisits(clusters, cache)[i]) {
      assert clusters[i] in clusters;
    }
    WorkingSync(f[id].table, WorkingVisits(clusters, cache), Role(f[id], checksum));
    NextSound(f, resync, checksum);
  }

  /** The run is calm for the cluster and these servers reach it; it is steady for an eligible one and never asks for
      another; and nobody reads it. */
  ghost predicate Serves(f: Servers, calm: seq<Event>, todo: set<string>, c: Cluster, checksum: Checksum)
    requires IsRun(f, calm, checksum)
  {
    && IsCalm(f, calm, c.uid, checksum)
    && (if Eligible(c) then AllSteady(calm, c.uid, c) else NeverAsked(calm, c.uid))
    && NoReads(calm, c.uid)
    && forall id :: id in todo ==> ReachedBy(calm, id, c.uid)
  }

  lemma ReachedMore(first: Event, rest: seq<Event>, id: string, uid: string)
    requires (first.server == id && !Says(first.action, uid).Silent?) || ReachedBy(rest, id, uid)
    ensures ReachedBy([first] + rest, id, uid)
  {
    var all := [first] + rest;
    if first.server == id && !Says(first.action, uid).Silent? {
      assert all[0] == first;
    } else {
      var i :| 0 <= i < |rest| && rest[i].server == id && !Says(rest[i].action, uid).Silent?;
      assert all[i + 1] == rest[i];
    }
  }

  lemma ServesMore(f: Servers, first: Event, rest: seq<Event>, todo: set<string>, clusters: seq<Cluster>,
                   cache: map<string, Cluster>, c: Cluster, checksum: Checksum)
    requires Possible(f, first) && IsRun(Next(f, first, checksum), rest, checksum)
    requires Cached(clusters, cache) && c in clusters && first.action == Resync(WorkingVisits(clusters, cache))
    requires Serves(Next(f, first, checksum), rest, todo - {first.server}, c, checksum)
    ensures IsRun(f, [first] + rest, checksum) && Serves(f, [first] + rest, todo, c, checksum)
  {
    var all := [first] + rest;
    Prepend(f, first, rest, checksum);
    CachedReaches(clusters, cache, c);
    assert all[0] == first && all[1..] == rest;
    forall id | id in todo ensures ReachedBy(all, id, c.uid) {
      ReachedMore(first, rest, id, c.uid);
    }
  }

  lemma WorksMore(f: Servers, first: Event, rest: seq<Event>, checksum: Checksum)
    requires Possible(f, first) && !Failed(f[first.server], first.action, checksum)
    requires IsRun(Next(f, first, checksum), rest, checksum) && NoFailure(Next(f, first, checksum), rest, checksum)
    ensures IsRun(f, [first] + rest, checksum) && NoFailure(f, [first] + rest, checksum)
  {
    Prepend(f, first, rest, checksum);
    assert ([first] + rest)[0] == first && ([first] + rest)[1..] == rest;
  }

  /** Letting the servers synchronise one after the other then fails nowhere. */
  lemma {:induction false} Settle(f: Servers, todo: set<string>, clusters: seq<Cluster>, cache: map<string, Cluster>,
                                  checksum: Checksum)
      returns (calm: seq<Event>)
    requires FleetSound(f) && todo <= f.Keys && Cached(clusters, cache) && AllReachable(clusters)
    ensures IsRun(f, calm, checksum) && NoFailure(f, calm, checksum)
    ensures forall c :: c in clusters ==> Serves(f, calm, todo, c, checksum)
    decreases todo
  {
    if todo == {} {
      return [];
    }
    var id :| id in todo;
    var resync := WorkingResync(f, id, clusters, cache, checksum);
    var rest := Settle(Next(f, resync, checksum), todo - {id}, clusters, cache, checksum);
    WorksMore(f, resync, rest, checksum);
    calm := [resync] + rest;
    forall c | c in clusters ensures Serves(f, calm, todo, c, checksum) {
      ServesMore(f, resync, rest, todo, clusters, cache, c, checksum);
    }
  }

  /** The convergence is no empty promise: from servers as they start, whatever clusters are listed that can be reached,
      there is a run to agreement and a calm run without failures after it, as the main result asks for of every listed
      cluster. */
  lemma FleetCanConverge(start: Servers, clusters: seq<Cluster>, cache: map<string, Cluster>, checksum: Checksum)
      returns (events: seq<Event>, calm: seq<Event>)
    requires forall id :: id in start ==> start[id] == Fresh(id, start[id].peering.token)
    requires |start.Keys| < PEER_LIMIT - 1 && Cached(clusters, cache) && AllReachable(clusters)
    ensures IsRun(start, events, checksum) && Agreed(After(start, events, checksum))
    ensures IsRun(After(start, events, checksum), calm, checksum) &&
            NoFailure(After(start, events, checksum), calm, checksum)
    ensures forall c :: c in clusters ==> Serves(After(start, events, checksum), calm, start.Keys, c, checksum)
  {
    StartsSound(start);
    events := Inform(start, start.Keys, checksum);
    RunSound(start, events, checksum);
    calm := Settle(After(start, events, checksum), start.Keys, clusters, cache, checksum);
  }
}
