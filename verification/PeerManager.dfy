/** The peer manager of one Rancher server: pkg/tunnelserver/peermanager.go.

    It follows the addresses behind the Rancher service, keeps the tunnel server's peers in
    step with them, and tells every listener who the peers are. */
module PeerManagement {
  import opened Ordering

  /** What a listener is told: the `Peers` struct of the peermanager package. */
  datatype Peers = Peers(selfID: string, ids: seq<string>, ready: bool, leader: bool)

  type Channel = nat

  datatype Delivery = Delivery(channel: Channel, peers: Peers)

  /** An Endpoints object: its subsets, each a list of addresses. */
  type Endpoints = seq<seq<string>>

  ghost function Addresses(e: Endpoints): set<string> {
    set i, j | 0 <= i < |e| && 0 <= j < |e[i]| :: e[i][j]
  }

  /** The fields of the peer manager and of the tunnel server it drives. */
  datatype State = State(
    selfID: string,
    token: string,
    leader: bool,
    ready: bool,
    peers: set<string>,
    registered: set<string>,
    listeners: set<Channel>)

  datatype Event =
    | EndpointsChanged(endpoints: Endpoints)
    | Elected
    | ListenerAdded(channel: Channel)
    | ListenerRemoved(channel: Channel)

  function Initial(selfID: string, token: string): State {
    State(selfID, token, false, false, {}, {}, {})
  }

  /** The tunnel server ignores peers while it has no identity of its own. */
  predicate CanPeer(s: State) {
    s.selfID != "" && s.token != ""
  }

  ghost function Step(s: State, event: Event): State {
    match event
    case EndpointsChanged(e) =>
      var peers := Addresses(e) - {s.selfID};
      s.(peers := peers, ready := s.selfID in Addresses(e),
         registered := if CanPeer(s) then s.registered + (peers - s.peers) - (s.peers - peers)
                       else s.registered - (s.peers - peers))
    case Elected => s.(leader := true)
    case ListenerAdded(c) => s.(listeners := s.listeners + {c})
    case ListenerRemoved(c) => s.(listeners := s.listeners - {c})
  }

  /** The registered peers are the known peers, and the server is not its own peer. */
  ghost predicate Consistent(s: State) {
    && s.registered == (if CanPeer(s) then s.peers else {})
    && s.selfID !in s.peers
  }

  ghost function Run(s: State, events: seq<Event>): State
    decreases |events|
  {
    if events == [] then s else Run(Step(s, events[0]), events[1..])
  }

  /** Over every run: peers stay in step with the tunnel server, the server never peers with
      itself, its identity is fixed and it never stops being leader. */
  lemma {:induction false} RunKeepsPeers(s: State, events: seq<Event>)
    requires Consistent(s)
    ensures Consistent(Run(s, events))
    ensures s.leader ==> Run(s, events).leader
    ensures Run(s, events).selfID == s.selfID
    decreases |events|
  {
    if events != [] {
      RunKeepsPeers(Step(s, events[0]), events[1..]);
    }
  }

  lemma {:induction false} RunLeavesPeers(s: State, events: seq<Event>)
    requires forall i :: 0 <= i < |events| ==> !events[i].EndpointsChanged?
    ensures var t := Run(s, events);
            t.peers == s.peers && t.ready == s.ready && t.registered == s.registered
    decreases |events|
  {
    if events != [] {
      RunLeavesPeers(Step(s, events[0]), events[1..]);
    }
  }

  /** After an endpoint update, whatever came before and whatever else follows, the peers are the
      other addresses of the latest update. */
  lemma {:induction false} LatestEndpointsWin(s: State, e: Endpoints, later: seq<Event>)
    requires Consistent(s)
    requires forall i :: 0 <= i < |later| ==> !later[i].EndpointsChanged?
    ensures var t := Run(s, [EndpointsChanged(e)] + later);
            t.peers == Addresses(e) - {s.selfID} && (t.ready <==> s.selfID in Addresses(e)) &&
            t.registered == (if CanPeer(s) then t.peers else {})
  {
    var first := Step(s, EndpointsChanged(e));
    assert ([EndpointsChanged(e)] + later)[1..] == later;
    RunLeavesPeers(first, later);
  }

  /** What a notification must carry: the current flags and each peer once. */
  ghost predicate Describes(p: Peers, s: State) {
    && p.selfID == s.selfID
    && p.leader == s.leader
    && p.ready == s.ready
    && Enumerates(p.ids, s.peers)
  }

  /** One notification round: the same message to each channel in turn. */
  ghost function Broadcast(order: seq<Channel>, message: Peers): seq<Delivery> {
    seq(|order|, i requires 0 <= i < |order| => Delivery(order[i], message))
  }

  /** The part of the remote dialer the peer manager uses. */
  class TunnelServer {
    const peerID: string
    const peerToken: string
    var peers: set<string>

    constructor (id: string, token: string)
      ensures peerID == id && peerToken == token && peers == {}
    {
      peerID := id;
      peerToken := token;
      peers := {};
    }

    method AddPeer(id: string)
      modifies this
      ensures peers == if peerID == "" || peerToken == "" then old(peers) else old(peers) + {id}
    {
      if peerID == "" || peerToken == "" {
        return;
      }
      peers := peers + {id};
    }

    method RemovePeer(id: string)
      modifies this
      ensures peers == old(peers) - {id}
    {
      peers := peers - {id};
    }
  }

  lemma AddressesSnoc(e: Endpoints, i: nat)
    requires i < |e|
    ensures Addresses(e[..i + 1]) == Addresses(e[..i]) + (set k | 0 <= k < |e[i]| :: e[i][k])
  {
    var before, after := e[..i], e[..i + 1];
    forall x | x in Addresses(before) ensures x in Addresses(after) {
      var a, b :| 0 <= a < |before| && 0 <= b < |before[a]| && before[a][b] == x;
      assert after[a][b] == x;
    }
    forall k | 0 <= k < |e[i]| ensures e[i][k] in Addresses(after) {
      assert after[i][k] == e[i][k];
    }
    forall x | x in Addresses(after) ensures x in Addresses(before) || x in set k | 0 <= k < |e[i]| :: e[i][k] {
      var a, b :| 0 <= a < |after| && 0 <= b < |after[a]| && after[a][b] == x;
      if a < i {
        assert before[a][b] == x;
      }
    }
  }

  class PeerManager {
    const server: TunnelServer
    var leader: bool
    var ready: bool
    var peers: set<string>
    var listeners: set<Channel>
    /** Every value sent on a listener channel, oldest first. */
    var log: seq<Delivery>

    ghost function View(): State
      reads this, server
    {
      State(server.peerID, server.peerToken, leader, ready, peers, server.peers, listeners)
    }

    ghost predicate Valid()
      reads this, server
    {
      Consistent(View())
    }

    constructor (s: TunnelServer)
      requires s.peers == {}
      ensures server == s && View() == Initial(s.peerID, s.peerToken) && log == []
      ensures Valid()
    {
      server := s;
      leader, ready := false, false;
      peers, listeners := {}, {};
      log := [];
    }

    method AddPeers(toCreate: set<string>)
      modifies server
      ensures server.peers == if server.peerID == "" || server.peerToken == "" then old(server.peers)
                              else old(server.peers) + toCreate
    {
      var rest := toCreate;
      while rest != {}
        invariant rest <= toCreate
        invariant server.peers == if server.peerID == "" || server.peerToken == "" then old(server.peers)
                                  else old(server.peers) + (toCreate - rest)
        decreases rest
      {
        var ip :| ip in rest;
        server.AddPeer(ip);
        rest := rest - {ip};
      }
    }

    method RemovePeers(toDelete: set<string>)
      modifies server
      ensures server.peers == old(server.peers) - toDelete
    {
      var rest := toDelete;
      while rest != {}
        invariant rest <= toDelete
        invariant server.peers == old(server.peers) - (toDelete - rest)
        decreases rest
      {
        var ip :| ip in rest;
        server.RemovePeer(ip);
        rest := rest - {ip};
      }
    }

    method CollectAddresses(endpoints: Endpoints) returns (newSet: set<string>, isReady: bool)
      ensures newSet == Addresses(endpoints) - {server.peerID}
      ensures isReady <==> server.peerID in Addresses(endpoints)
    {
      newSet, isReady := {}, false;
      for i := 0 to |endpoints|
        invariant newSet == Addresses(endpoints[..i]) - {server.peerID}
        invariant isReady <==> server.peerID in Addresses(endpoints[..i])
      {
        var subset := endpoints[i];
        for j := 0 to |subset|
          invariant newSet == Addresses(endpoints[..i]) + (set k | 0 <= k < j :: subset[k]) - {server.peerID}
          invariant isReady <==> server.peerID in Addresses(endpoints[..i]) + (set k | 0 <= k < j :: subset[k])
        {
          if subset[j] == server.peerID {
            isReady := true;
          } else {
            newSet := newSet + {subset[j]};
          }
          assert (set k | 0 <= k < j + 1 :: subset[k]) == (set k | 0 <= k < j :: subset[k]) + {subset[j]};
        }
        AddressesSnoc(endpoints, i);
      }
      assert endpoints[..|endpoints|] == endpoints;
    }

    method ListPeers() returns (ids: seq<string>)
      ensures Enumerates(ids, peers)
    {
      ids := [];
      var rest := peers;
      while rest != {}
        invariant rest <= peers
        invariant Enumerates(ids, peers - rest)
        decreases rest
      {
        var id :| id in rest;
        ids := ids + [id];
        rest := rest - {id};
      }
      assert peers - rest == peers;
    }

    method Notify() returns (ghost order: seq<Channel>, ghost message: Peers)
      modifies this`log
      ensures Describes(message, View()) && Enumerates(order, listeners)
      ensures log == old(log) + Broadcast(order, message)
    {
      var ids := ListPeers();
      var current := Peers(server.peerID, ids, ready, leader);
      message := current;
      var pending := listeners;
      order := [];
      while pending != {}
        invariant pending <= listeners
        invariant Enumerates(order, listeners - pending)
        invariant log == old(log) + Broadcast(order, message)
        decreases pending
      {
        var c :| c in pending;
        log := log + [Delivery(c, current)];
        order := order + [c];
        pending := pending - {c};
      }
      assert listeners - pending == listeners;
    }

    method AddRemovePeers(endpoints: Endpoints) returns (ghost order: seq<Channel>, ghost message: Peers)
      requires Valid()
      modifies this, server
      ensures Valid()
      ensures View() == Step(old(View()), EndpointsChanged(endpoints))
      ensures Describes(message, View()) && Enumerates(order, listeners)
      ensures log == old(log) + Broadcast(order, message)
    {
      var newSet, isReady := CollectAddresses(endpoints);
      AddPeers(newSet - peers);
      RemovePeers(peers - newSet);
      peers := newSet;
      ready := isReady;
      order, message := Notify();
    }

    method AddListener(c: Channel)
      requires Valid()
      modifies this`listeners
      ensures Valid() && View() == Step(old(View()), ListenerAdded(c))
    {
      listeners := listeners + {c};
    }

    /** The leaving listener gets a last message, not ready and without peers, so that it gives up ownership. */
    method RemoveListener(c: Channel)
      requires Valid()
      modifies this`listeners, this`log
      ensures Valid() && View() == Step(old(View()), ListenerRemoved(c))
      ensures log == old(log) + [Delivery(c, Peers(server.peerID, [], false, leader))]
    {
      listeners := listeners - {c};
      log := log + [Delivery(c, Peers(server.peerID, [], false, leader))];
    }

    /** Becoming leader is announced once; being told again says nothing. */
    method Leader() returns (ghost order: seq<Channel>, ghost message: Peers)
      requires Valid()
      modifies this`leader, this`log
      ensures Valid() && View() == Step(old(View()), Elected)
      ensures if old(leader) then log == old(log)
              else Describes(message, View()) && Enumerates(order, listeners) &&
                   log == old(log) + Broadcast(order, message)
    {
      order, message := [], Peers("", [], false, false);
      if leader {
        return;
      }
      leader := true;
      order, message := Notify();
    }
  }
}
