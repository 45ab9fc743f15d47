/** The per-cluster controller records of one Rancher server: pkg/clustermanager/manager.go. */
module ClusterManagement {

  import opened Basics

  /** The parts of a v3.Cluster the manager looks at. */
  datatype Cluster = Cluster(
    name: string,
    uid: string,
    deleting: bool,
    provisioned: bool,
    internal: bool,
    apiEndpoint: string,
    serviceAccountToken: string,
    caCert: string,
    authEndpointEnabled: bool)

  /** How starting the controllers of a record ends: synced, an error, or no answer in 30 seconds. */
  datatype Launch = Synced | LaunchFailed | TimedOut

  /** The answers one call gets from outside: whether a connection to the user cluster can be set up,
      whether its API server responds, how launching the controllers ends, and which cluster object
      the API returns when a cluster is about to be marked unavailable. */
  datatype Outside = Outside(connects: bool, alive: bool, launch: Launch, stored: Option<Cluster>)

  /** What the manager remembers about one record. */
  datatype Rec = Rec(clusterRec: Cluster, started: bool, owner: bool)

  type Table = map<string, Rec>

  /** Every record sits under the UID of its own cluster. */
  predicate WellKeyed(t: Table) {
    forall uid :: uid in t ==> t[uid].clusterRec.uid == uid
  }

  // ---------- The operations as functions of the table ----------

  predicate SameConnection(a: Cluster, b: Cluster) {
    && a.apiEndpoint == b.apiEndpoint
    && a.serviceAccountToken == b.serviceAccountToken
    && a.caCert == b.caCert
    && a.authEndpointEnabled == b.authEndpointEnabled
  }

  predicate Changed(r: Rec, cluster: Cluster, controllers: bool, clusterOwner: bool) {
    !SameConnection(r.clusterRec, cluster) || (controllers && r.started && clusterOwner != r.owner)
  }

  /** Whether there is anything to connect to: the cases in which ToRESTConfig returns no configuration. */
  predicate Reachable(cluster: Cluster) {
    && !cluster.deleting
    && (cluster.internal ||
        (cluster.apiEndpoint != "" && cluster.caCert != "" && cluster.serviceAccountToken != "" && cluster.provisioned))
  }

  function Unavailable(t: Table, o: Outside): Table {
    if o.stored.Some? then t - {o.stored.value.uid} else t
  }

  function StartController(t: Table, uid: string, controllers: bool, clusterOwner: bool, o: Outside): (Table, bool)
    requires uid in t
  {
    if !controllers then (t, true)
    else if !o.alive then (t, false)
    else if t[uid].started then (t, true)
    else if o.launch != Synced then (t - {t[uid].clusterRec.uid}, false)
    else (t[uid := t[uid].(started := true, owner := clusterOwner)], true)
  }

  /** Records under other UIDs may be dropped but are not added or altered. */
  predicate OnlyTouches(t: Table, next: Table, uid: string) {
    forall other :: other in next && other != uid ==> other in t && next[other] == t[other]
  }

  /** A fresh record for a cluster that has none. */
  function Begin(t: Table, cluster: Cluster, controllers: bool, clusterOwner: bool, o: Outside): (r: (Table, bool))
    requires cluster.uid !in t && WellKeyed(t)
    ensures WellKeyed(r.0) && OnlyTouches(t, r.0, cluster.uid)
    ensures cluster.uid in r.0 && r.0[cluster.uid].started ==> controllers && r.0[cluster.uid].owner == clusterOwner
    ensures r.1 ==>
              cluster.uid in r.0 && r.0[cluster.uid].clusterRec == cluster && (controllers ==> r.0[cluster.uid].started)
  {
    if !Reachable(cluster) then (t, false)
    else if !o.connects then (Unavailable(t, o), false)
    else
      var (next, ok) := StartController(t[cluster.uid := Rec(cluster, false, false)], cluster.uid, controllers,
                                        clusterOwner, o);
      if ok then (next, true) else (Unavailable(next, o), false)
  }

  function StartRecord(t: Table, cluster: Cluster, controllers: bool, clusterOwner: bool,
                       o: Outside): (r: (Table, bool))
    requires WellKeyed(t)
    ensures WellKeyed(r.0) && OnlyTouches(t, r.0, cluster.uid)
    ensures controllers && cluster.uid in r.0 && r.0[cluster.uid].started ==> r.0[cluster.uid].owner == clusterOwner
    ensures r.1 ==>
              cluster.uid in r.0 && SameConnection(r.0[cluster.uid].clusterRec, cluster) &&
              (controllers ==> r.0[cluster.uid].started)
  {
    if cluster.uid in t && !Changed(t[cluster.uid], cluster, controllers, clusterOwner) then
      StartController(t, cluster.uid, controllers, clusterOwner, o)
    else
      Begin(t - {cluster.uid}, cluster, controllers, clusterOwner, o)
  }

  lemma PutAndDrop(t: Table, uid: string, a: Rec)
    ensures t[uid := a] - {uid} == t - {uid}
  {
  }

  /** A start that succeeds changes no other record. */
  lemma StartRecordLocal(t: Table, cluster: Cluster, controllers: bool, clusterOwner: bool, o: Outside)
    requires WellKeyed(t) && StartRecord(t, cluster, controllers, clusterOwner, o).1
    ensures StartRecord(t, cluster, controllers, clusterOwner, o).0 - {cluster.uid} == t - {cluster.uid}
  {
    var uid, next := cluster.uid, StartRecord(t, cluster, controllers, clusterOwner, o).0;
    if uid in t && !Changed(t[uid], cluster, controllers, clusterOwner) {
      PutAndDrop(t, uid, next[uid]);
      assert next == t || next == t[uid := next[uid]];
    } else {
      var first := Rec(cluster, false, false);
      assert next == (t - {uid})[uid := first] || next == (t - {uid})[uid := first][uid := next[uid]];
      PutAndDrop(t - {uid}, uid, first);
      PutAndDrop((t - {uid})[uid := first], uid, next[uid]);
      assert t - {uid} - {uid} == t - {uid};
    }
  }

  /** `Start`: the cluster is read again from the cache, and what the cache says is used.

      On success there is a started record with the requested role and the current connection data. On success
      or failure, no started record is left in the wrong role and no other record is added or altered. */
  function Start(t: Table, cluster: Cluster, cache: map<string, Cluster>, clusterOwner: bool,
                 o: Outside): (r: (Table, bool))
    requires WellKeyed(t)
    ensures cluster.deleting ==> r == (t, true)
    ensures !cluster.deleting && r.1 ==>
              cluster.name in cache &&
              var now := cache[cluster.name];
              now.uid in r.0 && r.0[now.uid].started && r.0[now.uid].owner == clusterOwner &&
              SameConnection(r.0[now.uid].clusterRec, now) && r.0 - {now.uid} == t - {now.uid}
    ensures !cluster.deleting && cluster.name in cache ==>
              var now := cache[cluster.name];
              (now.uid in r.0 && r.0[now.uid].started ==> r.0[now.uid].owner == clusterOwner) &&
              (forall uid :: uid in r.0 && uid != now.uid ==> uid in t && r.0[uid] == t[uid])
    ensures WellKeyed(r.0)
  {
    if cluster.deleting then (t, true)
    else if cluster.name !in cache then (t, false)
    else
      var r := StartRecord(t, cache[cluster.name], true, clusterOwner, o);
      assert r.1 ==> r.0 - {cache[cluster.name].uid} == t - {cache[cluster.name].uid} by {
        if r.1 {
          StartRecordLocal(t, cache[cluster.name], true, clusterOwner, o);
        }
      }
      r
  }

  function Stop(t: Table, cluster: Cluster): Table {
    t - {cluster.uid}
  }

  /** Reading a cluster never starts controllers: every started record it leaves was there before, unchanged. A
      record whose connection data are current is not replaced, so nothing changes at all. */
  function UserContext(t: Table, name: string, cache: map<string, Cluster>, o: Outside): (r: (Table, bool))
    requires WellKeyed(t)
    ensures forall uid :: uid in r.0 && r.0[uid].started ==> uid in t && r.0[uid] == t[uid]
    ensures name in cache && cache[name].uid in t && SameConnection(t[cache[name].uid].clusterRec, cache[name]) ==>
              r == (t, true)
    ensures WellKeyed(r.0)
  {
    if name !in cache then (t, false) else StartRecord(t, cache[name], false, false, o)
  }

  // ---------- Runs ----------

  datatype Event =
    | StartEvent(cluster: Cluster, clusterOwner: bool)
    | StopEvent(cluster: Cluster)
    | ReadEvent(name: string)

  datatype Call = Call(event: Event, cache: map<string, Cluster>, outside: Outside)

  function Step(t: Table, c: Call): (next: Table)
    requires WellKeyed(t)
    ensures WellKeyed(next)
  {
    match c.event
    case StartEvent(cluster, clusterOwner) => Start(t, cluster, c.cache, clusterOwner, c.outside).0
    case StopEvent(cluster) => Stop(t, cluster)
    case ReadEvent(name) => UserContext(t, name, c.cache, c.outside).0
  }

  ghost function Run(t: Table, calls: seq<Call>): (end: Table)
    requires WellKeyed(t)
    ensures WellKeyed(end)
    decreases |calls|
  {
    if calls == [] then t else Run(Step(t, calls[0]), calls[1..])
  }

  /** The call asks this server to run the cluster with that UID, in that role. */
  ghost predicate AsksFor(c: Call, uid: string, role: bool) {
    && c.event.StartEvent?
    && c.event.clusterOwner == role
    && c.event.cluster.name in c.cache
    && c.cache[c.event.cluster.name].uid == uid
  }

  /** After any run, a started record was there already or some `Start` of the run asked for that cluster in
      the role the record has: stopping, reading and the starting of other clusters never make an owner. */
  lemma {:induction false} RolesWereAskedFor(t: Table, calls: seq<Call>, uid: string)
    requires WellKeyed(t)
    requires uid in Run(t, calls) && Run(t, calls)[uid].started
    ensures (uid in t && t[uid] == Run(t, calls)[uid]) ||
            exists i :: 0 <= i < |calls| && AsksFor(calls[i], uid, Run(t, calls)[uid].owner)
    decreases |calls|
  {
    if calls != [] {
      var mid, role := Step(t, calls[0]), Run(t, calls)[uid].owner;
      RolesWereAskedFor(mid, calls[1..], uid);
      if uid in mid && mid[uid] == Run(t, calls)[uid] {
        assert (uid in t && t[uid] == mid[uid]) || AsksFor(calls[0], uid, role);
      } else {
        var i :| 0 <= i < |calls[1..]| && AsksFor(calls[1..][i], uid, role);
        assert AsksFor(calls[i + 1], uid, role);
      }
    }
  }

  // ---------- The manager itself ----------

  class Record {
    const clusterRec: Cluster
    var started: bool
    var owner: bool
    /** Whether the record's context was cancelled, which ends its controllers. */
    var cancelled: bool

    constructor (cluster: Cluster)
      ensures clusterRec == cluster && !started && !owner && !cancelled
    {
      clusterRec := cluster;
      started, owner, cancelled := false, false, false;
    }
  }

  class Manager {
    var controllers: map<string, Record>
    /** Every record this manager ever made. */
    ghost var created: set<Record>

    /** Stored records sit under their cluster's UID and run; every other record ever made is cancelled, so no
        controllers keep running behind the manager's back. */
    ghost predicate Valid()
      reads this, created
    {
      && (forall uid :: uid in controllers ==>
            controllers[uid] in created && controllers[uid].clusterRec.uid == uid && !controllers[uid].cancelled)
      && (forall r :: r in created ==>
            r.cancelled || (r.clusterRec.uid in controllers && controllers[r.clusterRec.uid] == r))
    }

    ghost function View(): Table
      requires Valid()
      reads this, created
      ensures WellKeyed(View())
    {
      map uid | uid in controllers :: Rec(controllers[uid].clusterRec, controllers[uid].started, controllers[uid].owner)
    }

    constructor ()
      ensures Valid() && View() == map[] && created == {}
    {
      controllers := map[];
      created := {};
    }

    method StopCluster(cluster: Cluster)
      requires Valid()
      modifies this`controllers, created
      ensures Valid() && View() == Stop(old(View()), cluster)
    {
      if cluster.uid in controllers {
        controllers[cluster.uid].cancelled := true;
        controllers := controllers - {cluster.uid};
      }
    }

    method MarkUnavailable(o: Outside)
      requires Valid()
      modifies this`controllers, created
      ensures Valid() && View() == Unavailable(old(View()), o)
    {
      if o.stored.Some? {
        StopCluster(o.stored.value);
      }
    }

    /** A launch that failed: a timeout cancels the context at once, any other failure when the record is stopped. */
    method Abandon(r: Record)
      requires Valid()
      requires r.clusterRec.uid in controllers && controllers[r.clusterRec.uid] == r
      modifies this`controllers, created
      ensures Valid() && View() == old(View()) - {r.clusterRec.uid}
    {
      r.cancelled := true;
      controllers := controllers - {r.clusterRec.uid};
    }

    /** A launch that succeeded. */
    method Launched(r: Record, clusterOwner: bool)
      requires Valid()
      requires r.clusterRec.uid in controllers && controllers[r.clusterRec.uid] == r
      modifies created
      ensures Valid()
      ensures View() == old(View())[r.clusterRec.uid :=
                                    old(View())[r.clusterRec.uid].(started := true, owner := clusterOwner)]
    {
      r.started := true;
      r.owner := clusterOwner;
    }

    method StartControllers(r: Record, run: bool, clusterOwner: bool, o: Outside) returns (ok: bool)
      requires Valid()
      requires r.clusterRec.uid in controllers && controllers[r.clusterRec.uid] == r
      modifies this`controllers, created
      ensures Valid()
      ensures ok == StartController(old(View()), r.clusterRec.uid, run, clusterOwner, o).1
      ensures View() == StartController(old(View()), r.clusterRec.uid, run, clusterOwner, o).0
    {
      if !run {
        return true;
      }
      if !o.alive {
        return false;
      }
      if !r.started {
        if o.launch != Synced {
          Abandon(r);
          return false;
        }
        Launched(r, clusterOwner);
      }
      return true;
    }

    method Store(cluster: Cluster) returns (r: Record)
      requires Valid() && cluster.uid !in controllers
      modifies this
      ensures Valid() && fresh(r) && created == old(created) + {r}
      ensures r.clusterRec == cluster && cluster.uid in controllers && controllers[cluster.uid] == r
      ensures View() == old(View())[cluster.uid := Rec(cluster, false, false)]
    {
      r := new Record(cluster);
      created := created + {r};
      controllers := controllers[cluster.uid := r];
    }

    method Create(cluster: Cluster, run: bool, clusterOwner: bool, o: Outside) returns (ok: bool)
      requires Valid() && cluster.uid !in controllers
      modifies this, created
      ensures Valid() && fresh(created - old(created))
      ensures ok == Begin(old(View()), cluster, run, clusterOwner, o).1
      ensures View() == Begin(old(View()), cluster, run, clusterOwner, o).0
    {
      if !Reachable(cluster) {
        return false;
      }
      if !o.connects {
        MarkUnavailable(o);
        return false;
      }
      var r := Store(cluster);
      ok := StartControllers(r, run, clusterOwner, o);
      if !ok {
        MarkUnavailable(o);
      }
    }

    method Obtain(cluster: Cluster, run: bool, clusterOwner: bool, o: Outside) returns (ok: bool)
      requires Valid()
      modifies this, created
      ensures Valid() && fresh(created - old(created))
      ensures ok == StartRecord(old(View()), cluster, run, clusterOwner, o).1
      ensures View() == StartRecord(old(View()), cluster, run, clusterOwner, o).0
    {
      ghost var t := View();
      if cluster.uid in controllers {
        var r := controllers[cluster.uid];
        assert t[cluster.uid] == Rec(r.clusterRec, r.started, r.owner);
        if !Changed(Rec(r.clusterRec, r.started, r.owner), cluster, run, clusterOwner) {
          ok := StartControllers(r, run, clusterOwner, o);
          return;
        }
        StopCluster(r.clusterRec);
      }
      assert View() == t - {cluster.uid};
      ok := Create(cluster, run, clusterOwner, o);
    }

    method StartCluster(cluster: Cluster, cache: map<string, Cluster>, clusterOwner: bool, o: Outside)
        returns (ok: bool)
      requires Valid()
      modifies this, created
      ensures Valid() && fresh(created - old(created))
      ensures ok == Start(old(View()), cluster, cache, clusterOwner, o).1
      ensures View() == Start(old(View()), cluster, cache, clusterOwner, o).0
    {
      if cluster.deleting {
        return true;
      }
      if cluster.name !in cache {
        return false;
      }
      ok := Obtain(cache[cluster.name], true, clusterOwner, o);
    }

    method ReadContext(name: string, cache: map<string, Cluster>, o: Outside) returns (ok: bool)
      requires Valid()
      modifies this, created
      ensures Valid() && fresh(created - old(created))
      ensures ok == UserContext(old(View()), name, cache, o).1
      ensures View() == UserContext(old(View()), name, cache, o).0
    {
      if name !in cache {
        return false;
      }
      ok := Obtain(cache[name], false, false, o);
    }
  }
}
