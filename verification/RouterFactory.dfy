/** Double-checked creation of one proxy server per cluster: pkg/clusterrouter/factory.go.

    Any number of requests run `get` at once. The two concurrent maps are read without the lock and written one
    after the other, so every single map access and every lock operation is a step of its own here, and a run is
    any interleaving of such steps. */
module RouterFactory {

  import opened Basics
  import opened Seqs

  type ClusterID = string
  type RequestID = nat

  /** A server is known by its place in the list of all servers ever made. */
  type ServerID = nat

  /** Where a request is in `get`; a server carried along is the one it has read or made. */
  datatype Phase =
    | LookServer
    | LookCluster(found: ServerID)
    | Lock
    | LookServerAgain
    | LookClusterAgain(found: ServerID)
    | MakeServer
    | StoreServer(made: ServerID)
    | StoreCluster(kept: ServerID)
    | Unlock(answer: Option<ServerID>)
    | Done(answer: Option<ServerID>)

  datatype Request = Request(cluster: ClusterID, phase: Phase)

  datatype State = State(
    servers: map<ClusterID, ServerID>,
    clusters: set<ClusterID>,
    locks: map<ClusterID, RequestID>,
    made: seq<ClusterID>,
    requests: map<RequestID, Request>)

  /** A step: a new request comes in, or one request does its next access. `succeeds` says how making a
      server ends, for the step that does. */
  datatype Step =
    | Arrive(id: RequestID, cluster: ClusterID)
    | Advance(id: RequestID, succeeds: bool)

  function Initial(): State {
    State(map[], {}, map[], [], map[])
  }

  predicate Enabled(s: State, step: Step) {
    match step
    case Arrive(id, _) => id !in s.requests
    case Advance(id, _) =>
      && id in s.requests
      && !s.requests[id].phase.Done?
      && (s.requests[id].phase.Lock? ==> s.requests[id].cluster !in s.locks)
  }

  function At(s: State, id: RequestID, phase: Phase): State
    requires id in s.requests
  {
    s.(requests := s.requests[id := s.requests[id].(phase := phase)])
  }

  function Next(s: State, step: Step): State
    requires Enabled(s, step)
  {
    match step
    case Arrive(id, c) => s.(requests := s.requests[id := Request(c, LookServer)])
    case Advance(id, succeeds) =>
      var c := s.requests[id].cluster;
      match s.requests[id].phase
      case LookServer => At(s, id, if c in s.servers then LookCluster(s.servers[c]) else Lock)
      case LookCluster(srv) => At(s, id, if c in s.clusters then Done(Some(srv)) else Lock)
      case Lock => At(s.(locks := s.locks[c := id]), id, LookServerAgain)
      case LookServerAgain => At(s, id, if c in s.servers then LookClusterAgain(s.servers[c]) else MakeServer)
      case LookClusterAgain(srv) => At(s, id, if c in s.clusters then Unlock(Some(srv)) else MakeServer)
      case MakeServer =>
        if succeeds then At(s.(made := s.made + [c]), id, StoreServer(|s.made|)) else At(s, id, Unlock(None))
      case StoreServer(srv) =>
        if c in s.servers then At(s, id, StoreCluster(s.servers[c]))
        else At(s.(servers := s.servers[c := srv]), id, StoreCluster(srv))
      case StoreCluster(srv) => At(s.(clusters := s.clusters + {c}), id, Unlock(Some(srv)))
      case Unlock(answer) => At(s.(locks := s.locks - {c}), id, Done(answer))
      // No request that is done is enabled.
      case Done(_) => s
  }

  // ---------- What every reachable state satisfies ----------

  predicate Inside(p: Phase) {
    p.LookServerAgain? || p.LookClusterAgain? || p.MakeServer? || p.StoreServer? || p.StoreCluster? || p.Unlock?
  }

  /** The three places that know about a cluster agree: either none does or all do. */
  ghost predicate InStep(s: State, c: ClusterID) {
    (c in s.made <==> c in s.servers) && (c in s.servers <==> c in s.clusters)
  }

  /** A server a request has got hold of is the published one. */
  ghost predicate Published(s: State, c: ClusterID, srv: ServerID) {
    c in s.servers && s.servers[c] == srv
  }

  ghost predicate RequestInv(s: State, id: RequestID)
    requires id in s.requests
  {
    var c := s.requests[id].cluster;
    && (Inside(s.requests[id].phase) <==> c in s.locks && s.locks[c] == id)
    && match s.requests[id].phase
       case LookServer => true
       case LookCluster(srv) => Published(s, c, srv)
       case Lock => true
       case LookServerAgain => InStep(s, c)
       case LookClusterAgain(srv) => InStep(s, c) && Published(s, c, srv)
       case MakeServer => InStep(s, c) && c !in s.made
       case StoreServer(srv) => srv < |s.made| && s.made[srv] == c && c !in s.servers && c !in s.clusters
       case StoreCluster(srv) => Published(s, c, srv) && c in s.made && c !in s.clusters
       case Unlock(answer) => InStep(s, c) && (answer.Some? ==> Published(s, c, answer.value))
       case Done(answer) => answer.Some? ==> Published(s, c, answer.value)
  }

  /** Servers are made once, and stored under their clusters. */
  ghost predicate ServersInv(s: State) {
    Distinct(s.made) && forall c :: c in s.servers ==> s.servers[c] < |s.made| && s.made[s.servers[c]] == c
  }

  /** Locks are held by requests for their clusters. */
  ghost predicate LocksInv(s: State) {
    forall c :: c in s.locks ==> s.locks[c] in s.requests && s.requests[s.locks[c]].cluster == c
  }

  ghost predicate StoreInv(s: State) {
    ServersInv(s) && LocksInv(s) && forall c :: c !in s.locks ==> InStep(s, c)
  }

  ghost predicate Inv(s: State) {
    StoreInv(s) && forall id :: id in s.requests ==> RequestInv(s, id)
  }

  /** A step concerns one cluster only. */
  ghost predicate SameFor(s: State, t: State, c: ClusterID) {
    && (c in t.servers <==> c in s.servers) && (c in s.servers ==> t.servers[c] == s.servers[c])
    && (c in t.clusters <==> c in s.clusters)
    && (c in t.locks <==> c in s.locks) && (c in s.locks ==> t.locks[c] == s.locks[c])
    && (c in t.made <==> c in s.made)
    && s.made <= t.made
  }

  lemma ElsewhereUntouched(s: State, id: RequestID, succeeds: bool, c: ClusterID)
    requires Enabled(s, Advance(id, succeeds)) && c != s.requests[id].cluster
    ensures SameFor(s, Next(s, Advance(id, succeeds)), c)
  {
  }

  lemma SameForKeeps(s: State, t: State, id: RequestID)
    requires id in s.requests && id in t.requests && t.requests[id] == s.requests[id]
    requires RequestInv(s, id) && SameFor(s, t, s.requests[id].cluster)
    ensures RequestInv(t, id)
  {
  }

  /** A request that waits outside the lock is not affected by the one that works inside, on the same cluster. */
  lemma OutsiderUndisturbed(s: State, id: RequestID, succeeds: bool, other: RequestID)
    requires Enabled(s, Advance(id, succeeds)) && other in s.requests && other != id
    requires RequestInv(s, id) && RequestInv(s, other)
    requires s.requests[other].cluster == s.requests[id].cluster && !Inside(s.requests[other].phase)
    ensures RequestInv(Next(s, Advance(id, succeeds)), other)
  {
  }

  /** What another request knows survives a step of the request `id`. */
  lemma OthersUndisturbed(s: State, id: RequestID, succeeds: bool, other: RequestID)
    requires Enabled(s, Advance(id, succeeds)) && other in s.requests && other != id
    requires RequestInv(s, id) && RequestInv(s, other)
    ensures RequestInv(Next(s, Advance(id, succeeds)), other)
  {
    var t := Next(s, Advance(id, succeeds));
    if s.requests[other].cluster != s.requests[id].cluster {
      ElsewhereUntouched(s, id, succeeds, s.requests[other].cluster);
      SameForKeeps(s, t, other);
    } else if Inside(s.requests[other].phase) {
      assert !Inside(s.requests[id].phase) && !s.requests[id].phase.Lock?;
      SameForKeeps(s, t, other);
    } else {
      OutsiderUndisturbed(s, id, succeeds, other);
    }
  }

  lemma OwnStep(s: State, id: RequestID, succeeds: bool)
    requires Inv(s) && Enabled(s, Advance(id, succeeds))
    ensures RequestInv(Next(s, Advance(id, succeeds)), id)
  {
    assert RequestInv(s, id);
  }

  lemma ServersKept(s: State, id: RequestID, succeeds: bool)
    requires Inv(s) && Enabled(s, Advance(id, succeeds))
    ensures ServersInv(Next(s, Advance(id, succeeds)))
  {
    assert RequestInv(s, id);
  }

  lemma LocksKept(s: State, id: RequestID, succeeds: bool)
    requires LocksInv(s) && Enabled(s, Advance(id, succeeds))
    ensures LocksInv(Next(s, Advance(id, succeeds)))
  {
  }

  lemma StoresKept(s: State, id: RequestID, succeeds: bool)
    requires Inv(s) && Enabled(s, Advance(id, succeeds))
    ensures StoreInv(Next(s, Advance(id, succeeds)))
  {
    var t, mine := Next(s, Advance(id, succeeds)), s.requests[id].cluster;
    ServersKept(s, id, succeeds);
    LocksKept(s, id, succeeds);
    forall c | c !in t.locks ensures InStep(t, c) {
      if c != mine {
        ElsewhereUntouched(s, id, succeeds, c);
      } else {
        assert RequestInv(s, id);
      }
    }
  }

  lemma ArrivalKeepsInv(s: State, id: RequestID, c: ClusterID)
    requires Inv(s) && Enabled(s, Arrive(id, c))
    ensures Inv(Next(s, Arrive(id, c)))
  {
    var t := Next(s, Arrive(id, c));
    forall other | other in t.requests ensures RequestInv(t, other) {
      if other != id {
        SameForKeeps(s, t, other);
      }
    }
  }

  lemma StepKeepsInv(s: State, step: Step)
    requires Inv(s) && Enabled(s, step)
    ensures Inv(Next(s, step))
  {
    match step
    case Arrive(id, c) => ArrivalKeepsInv(s, id, c);
    case Advance(id, succeeds) =>
      StoresKept(s, id, succeeds);
      OwnStep(s, id, succeeds);
      forall other | other in s.requests && other != id ensures RequestInv(Next(s, step), other) {
        OthersUndisturbed(s, id, succeeds, other);
      }
  }

  // ---------- Runs ----------

  predicate IsRun(s: State, steps: seq<Step>)
    decreases |steps|
  {
    steps == [] || (Enabled(s, steps[0]) && IsRun(Next(s, steps[0]), steps[1..]))
  }

  function After(s: State, steps: seq<Step>): State
    requires IsRun(s, steps)
    decreases |steps|
  {
    if steps == [] then s else After(Next(s, steps[0]), steps[1..])
  }

  lemma {:induction false} RunKeepsInv(s: State, steps: seq<Step>)
    requires Inv(s) && IsRun(s, steps)
    ensures Inv(After(s, steps))
    decreases |steps|
  {
    if steps != [] {
      StepKeepsInv(s, steps[0]);
      RunKeepsInv(Next(s, steps[0]), steps[1..]);
    }
  }

  /** Under every interleaving at most one server is ever made for a cluster, and every request that is
      answered with a server is answered with that one. */
  lemma OneServerPerCluster(steps: seq<Step>)
    requires IsRun(Initial(), steps)
    ensures var s := After(Initial(), steps);
            && Distinct(s.made)
            && (forall id :: id in s.requests && s.requests[id].phase.Done? && s.requests[id].phase.answer.Some? ==>
                  var srv := s.requests[id].phase.answer.value;
                  srv < |s.made| && s.made[srv] == s.requests[id].cluster)
  {
    RunKeepsInv(Initial(), steps);
    var s := After(Initial(), steps);
    forall id | id in s.requests && s.requests[id].phase.Done? && s.requests[id].phase.answer.Some?
      ensures var srv := s.requests[id].phase.answer.value;
              srv < |s.made| && s.made[srv] == s.requests[id].cluster
    {
      assert RequestInv(s, id);
    }
  }

  /** Hence two requests for one cluster never get different servers, no matter how far apart they ran. */
  lemma SameAnswer(steps: seq<Step>, a: RequestID, b: RequestID)
    requires IsRun(Initial(), steps)
    requires var s := After(Initial(), steps);
             a in s.requests && b in s.requests && s.requests[a].cluster == s.requests[b].cluster &&
             s.requests[a].phase.Done? && s.requests[a].phase.answer.Some? &&
             s.requests[b].phase.Done? && s.requests[b].phase.answer.Some?
    ensures var s := After(Initial(), steps); s.requests[a].phase == s.requests[b].phase
  {
    OneServerPerCluster(steps);
  }

  /** The answer stands for good: servers are never replaced. */
  lemma {:induction false} ServersNeverReplaced(s: State, steps: seq<Step>, c: ClusterID)
    requires IsRun(s, steps) && c in s.servers
    ensures c in After(s, steps).servers && After(s, steps).servers[c] == s.servers[c]
    decreases |steps|
  {
    if steps != [] {
      ServersNeverReplaced(Next(s, steps[0]), steps[1..], c);
    }
  }
}
