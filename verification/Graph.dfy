/**
 * A virtual graph (or the JACK graph, which has no object path): the operations on its clients,
 * ports and connections, and the signals that tell listeners about the visible part.
 */
module Graphs {
  import opened Wrappers
  import opened Lists
  import opened Patchbay
  import opened Topologies

  /** Each of these ports is alive and counts `due` entries elsewhere, one here, and one more if in `held`. */
  ghost predicate Owed(ps: set<SharedPort>, due: map<SharedPort, nat>, held: set<SharedPort>)
    reads ps
  {
    forall p <- ps :: p in due && !p.destroyed && p.refcount == due[p] + 1 + (if p in held then 1 else 0)
  }

  /** Each of these ports counts exactly its entries elsewhere, and is destroyed if there is none. */
  ghost predicate Released(ps: set<SharedPort>, due: map<SharedPort, nat>)
    reads ps
  {
    forall p <- ps :: p in due && p.refcount == due[p] && p.destroyed == (due[p] == 0)
  }

  lemma OneOwed(ps: set<SharedPort>, due: map<SharedPort, nat>, held: set<SharedPort>, p: SharedPort)
    requires Owed(ps, due, held) && p in ps
    ensures Owed(ps - {p}, due, held)
    ensures p in due && !p.destroyed && p.refcount == due[p] + 1 + (if p in held then 1 else 0)
  {
  }

  lemma OneReleased(ps: set<SharedPort>, due: map<SharedPort, nat>, p: SharedPort)
    requires Released(ps, due) && p in due && p.refcount == due[p] && p.destroyed == (due[p] == 0)
    ensures Released(ps + {p}, due)
  {
  }

  /** Part of the owed ports, as seen with fewer entries held by the other graph. */
  lemma SomeOwed(ps: set<SharedPort>, due: map<SharedPort, nat>, held: set<SharedPort>, some: set<SharedPort>, held': set<SharedPort>)
    requires Owed(ps, due, held) && some <= ps && forall p <- ps :: p in held <==> p in held'
    ensures Owed(some, due, held') && Owed(ps - some, due, held)
  {
  }

  lemma MoreReleased(ps: set<SharedPort>, due: map<SharedPort, nat>, more: set<SharedPort>)
    requires Released(ps, due) && Released(more, due)
    ensures Released(ps + more, due)
  {
  }

  lemma NoneReleased(due: map<SharedPort, nat>)
    ensures Released({}, due)
  {
  }

  ghost predicate Announced(signals: seq<Signal>, from: nat, c: Change) {
    exists i :: from <= i < |signals| && signals[i].change == c
  }

  lemma AnnouncedNow(signals: seq<Signal>, from: nat)
    requires from < |signals|
    ensures Announced(signals, from, signals[|signals| - 1].change)
  {
  }

  lemma AnnouncedStill(before: seq<Signal>, signals: seq<Signal>, from: nat, c: Change)
    requires Announced(before, from, c) && before <= signals
    ensures Announced(signals, from, c)
  {
    var i :| from <= i < |before| && before[i].change == c;
    assert signals[i] == before[i];
  }

  /** The clients that stand for a running JACK client. */
  ghost function Real(client: Clients): set<nat>
    reads set c | c in client :: client[c].handle
  {
    set c | c in client && client[c].handle.jackId != 0
  }

  lemma AllReal(client: Clients)
    ensures forall c :: c in Real(client) <==> c in client && client[c].handle.jackId != 0
  {
  }

  ghost function HeldBy(g: Graph?): set<SharedPort>
    reads g
  {
    if g == null then {} else g.port.Keys
  }

  class Graph {
    const hasPath: bool
    var client: map<nat, Client>
    var port: map<SharedPort, Port>
    var connection: map<nat, Connection>
    var clients: seq<nat>
    var ports: seq<SharedPort>
    var connections: seq<nat>
    var version: nat
    var nextClientId: nat
    var nextPortId: nat
    var nextConnectionId: nat
    var persist: bool
    var hasConnectHandler: bool

    /** Every signal sent so far, and what a strict listener makes of them. */
    ghost var signals: seq<Signal>
    ghost var mirror: Mirror
    ghost var byId: map<nat, SharedPort>

    /** The connections the connect handler was asked to make, in order. */
    ghost var requests: seq<nat>

    ghost function State(): Topology
      reads this
    {
      Topology(client, port, connection, clients, ports, connections, nextClientId, nextPortId, nextConnectionId, byId)
    }

    /** A strict listener accepts the signals, and their versions never go back. */
    ghost predicate Logged()
      reads this`signals, this`mirror, this`version
    {
      && Replay(NOTHING, signals) == Some(mirror)
      && (forall i, j :: 0 <= i < j < |signals| ==> signals[i].version <= signals[j].version)
      && (forall i :: 0 <= i < |signals| ==> signals[i].version <= version)
    }

    /** The graph is sound, and replaying its signals gives exactly its visible part. */
    ghost predicate Valid()
      reads this
    {
      && Sound(State()) && Logged()
      && (hasPath ==> Seen(State(), mirror))
      && (!hasPath ==> signals == [])
    }

    constructor (hasPath: bool)
      ensures Valid() && this.hasPath == hasPath && persist && !hasConnectHandler
      ensures State() == Topology(map[], map[], map[], [], [], [], 1, 1, 1, map[]) && signals == [] && requests == []
    {
      this.hasPath := hasPath;
      client, port, connection := map[], map[], map[];
      clients, ports, connections := [], [], [];
      version, nextClientId, nextPortId, nextConnectionId := 1, 1, 1, 1;
      persist, hasConnectHandler := true, false;
      signals, mirror, byId, requests := [], NOTHING, map[], [];
    }

    /** How signals name a port. */
    ghost function EndHere(p: SharedPort): End
      requires p in port && port[p].owner in client
      reads this`port, this`client
    {
      End(port[p].owner, client[port[p].owner].name, port[p].id, port[p].name)
    }

    /** Sends a signal that tells the listeners that the graph now looks like `t`. */
    ghost method Emit(c: Change, t: Topology)
      requires Logged() && Tells(mirror, c, t)
      modifies this`signals, this`mirror
      ensures Logged() && Seen(t, mirror)
      ensures signals == old(signals) + [Signal(version, c)]
    {
      hide Seen;
      ReplayOne(NOTHING, signals, Signal(version, c));
      signals := signals + [Signal(version, c)];
      mirror := Apply(mirror, c).value;
    }

    method BumpVersion()
      requires Logged()
      modifies this`version
      ensures Logged() && version == old(version) + 1
    {
      version := version + 1;
    }

    method HideConnectionInternal(k: nat)
      requires Valid() && k in connection && !connection[k].hidden
      modifies this`connection, this`version, this`signals, this`mirror
      ensures Valid() && connection == HideLinks(old(connection), {k})
      ensures connection == old(connection)[k := old(connection)[k].(hidden := true)]
      ensures version == old(version) + 1
      ensures signals == old(signals) + if !hasPath then [] else
                [Signal(version, PortsDisconnected(EndHere(connection[k].port1), EndHere(connection[k].port2), k))]
    {
      hide Sound, Seen, Tells, Logged, HideLinks;
      ghost var t := State();
      HideOne(connection, k);
      TouchLink(t, mirror, k, connection[k].(hidden := true));
      connection := connection[k := connection[k].(hidden := true)];
      BumpVersion();
      if hasPath {
        HideLink(t, mirror, k);
        Emit(Disconnected(t, k), State());
      }
    }

    method HideConnections(p: SharedPort)
      requires Valid() && hasPath
      modifies this`connection, this`version, this`signals, this`mirror
      ensures Valid() && connection == HideLinks(old(connection), LinksOf(old(connection), p))
      ensures connection.Keys == old(connection).Keys
      ensures forall k <- connection :: var n := old(connection)[k];
                connection[k] == n.(hidden := n.hidden || n.port1 == p || n.port2 == p)
      ensures version >= old(version) && old(signals) <= signals
    {
      hide Sound, Seen, Tells, Logged, HideLinks;
      ghost var ks := LinksOf(connection, p);
      ListsHold(State());
      LinksHidden(connection, p);
      HideDone(connection, ks, connections);
      for i := 0 to |connections|
        invariant Valid() && old(signals) <= signals && version >= old(version)
        invariant connection == HideLinks(old(connection), ks * Elems(connections[..i]))
      {
        Listings(old(State()));
        HideNext(old(connection), ks, connections, i);
        var k := connections[i];
        if !connection[k].hidden && connection[k].Touches(p) {
          HideConnectionInternal(k);
        }
      }
    }
  
    method HidePortInternal(p: SharedPort)
      requires Valid() && p in port && !port[p].hidden
      requires hasPath ==> NoShownLink(connection, p)
      modifies this`port, this`version, this`signals, this`mirror
      ensures Valid() && port == old(port)[p := old(port)[p].(hidden := true)]
      ensures version == old(version) + 1
      ensures signals == old(signals) + if hasPath then [Signal(version, PortDisappeared(EndHere(p)))] else []
    {
      hide Sound, Seen, Tells, Logged, NoShownLink;
      ghost var t := State();
      TouchPort(t, p, port[p].(hidden := true));
      port := port[p := port[p].(hidden := true)];
      BumpVersion();
      if hasPath {
        Topologies.HidePort(t, mirror, p);
        Emit(PortDisappeared(EndOf(t, p)), State());
      }
    }

    /**
     * Without an object path the connections of the port are left as they are, so the visibility
     * rule survives exactly when none of them is visible.
     */
    method HidePort(p: SharedPort)
      requires Valid() && p in port && !port[p].hidden
      modifies this`port, this`connection, this`version, this`signals, this`mirror
      ensures Valid() && port == old(port)[p := old(port)[p].(hidden := true)]
      ensures connection == if hasPath then HideLinks(old(connection), LinksOf(old(connection), p)) else old(connection)
      ensures connection.Keys == old(connection).Keys
      ensures forall k <- connection :: var n := old(connection)[k];
                connection[k] == n.(hidden := n.hidden || (hasPath && (n.port1 == p || n.port2 == p)))
      ensures version > old(version) && old(signals) <= signals
      ensures !hasPath && old(Shown(State())) ==> (Shown(State()) <==> NoShownLink(connection, p))
    {
      hide Sound, Seen, Tells, Logged, HideLinks, NoShownLink, PortsShown, LinksShown;
      if hasPath {
        HideConnections(p);
        HiddenLinksOf(old(connection), p);
      }
      HidePortInternal(p);
      if old(Shown(State())) {
        PortHiddenRule(old(State()), p);
      }
    }

    method HideClient(c: nat)
      requires Valid() && c in client && !client[c].hidden
      requires hasPath ==> NoShownPort(port, c)
      modifies this`client, this`version, this`signals, this`mirror
      ensures Valid() && client == old(client)[c := old(client)[c].(hidden := true)]
      ensures version == old(version) + 1
      ensures signals == old(signals) + if hasPath then [Signal(version, ClientDisappeared(c, client[c].name))] else []
    {
      hide Sound, Seen, Tells, Logged, NoShownPort;
      ghost var t := State();
      TouchClient(t, c, client[c].(hidden := true));
      client := client[c := client[c].(hidden := true)];
      BumpVersion();
      if hasPath {
        Topologies.HideClient(t, mirror, c);
        Emit(ClientDisappeared(c, client[c].name), State());
      }
    }

    method ShowClient(c: nat)
      requires Valid() && c in client && client[c].hidden
      modifies this`client, this`version, this`signals, this`mirror
      ensures Valid() && client == old(client)[c := old(client)[c].(hidden := false)]
      ensures version == old(version) + 1
      ensures signals == old(signals) + if hasPath then [Signal(version, ClientAppeared(c, client[c].name))] else []
    {
      hide Sound, Seen, Tells, Logged;
      ghost var t := State();
      TouchClient(t, c, client[c].(hidden := false));
      client := client[c := client[c].(hidden := false)];
      BumpVersion();
      if hasPath {
        Topologies.ShowClient(t, mirror, c);
        Emit(ClientAppeared(c, client[c].name), State());
      }
    }

    method ShowConnection(k: nat)
      requires Valid() && hasPath && k in connection && connection[k].hidden
      requires connection[k].port1 in port && !port[connection[k].port1].hidden
      requires connection[k].port2 in port && !port[connection[k].port2].hidden
      modifies this`connection, this`version, this`signals, this`mirror
      ensures Valid() && connection == old(connection)[k := old(connection)[k].(hidden := false, changing := false)]
      ensures version == old(version) + 1
      ensures signals == old(signals) +
                [Signal(version, PortsConnected(EndHere(connection[k].port1), EndHere(connection[k].port2), k))]
    {
      hide Sound, Seen, Tells, Logged;
      ghost var t := State();
      connection := connection[k := connection[k].(hidden := false, changing := false)];
      BumpVersion();
      ShowLink(t, mirror, k, connection[k]);
      TouchLink(t, mirror, k, connection[k]);
      Emit(Connected(t, k), State());
    }

    /**
     * Asks the connect handler for every hidden connection between visible ports that is not
     * already being made. `accepted` are the connections it agrees to make.
     */
    method TryConnectHiddenConnections(accepted: set<nat>)
      requires Valid() && hasPath
      modifies this`connection, this`requests
      ensures Valid()
      ensures hasConnectHandler ==> connection == MarkChanging(old(connection), Eligible(port, old(connection)) * accepted)
      ensures hasConnectHandler ==> requests == old(requests) + Restrict(connections, Eligible(port, old(connection)))
      ensures !hasConnectHandler ==> connection == old(connection) && requests == old(requests)
      ensures hasConnectHandler ==>
                connection.Keys == old(connection).Keys
                && forall k <- connection :: var n := old(connection)[k];
                     connection[k] == if n.hidden && !n.changing && !port[n.port1].hidden && !port[n.port2].hidden
                                      then n.(changing := k in accepted) else n
      ensures hasConnectHandler ==>
                old(requests) <= requests
                && var asked := requests[|old(requests)|..];
                   asked == Restrict(connections, Elems(asked))
                   && forall k :: k in asked <==> k in old(connection) && var n := old(connection)[k];
                        n.hidden && !n.changing && !port[n.port1].hidden && !port[n.port2].hidden
    {
      hide Sound, Seen, Tells, Logged, Holds, MarkChanging, Restrict, Eligible;
      if !hasConnectHandler {
        return;
      }
      ghost var ks := Eligible(port, connection);
      ListsHold(State());
      MarkDone(connection, ks * accepted, connections);
      RestrictNothing(ks);
      for i := 0 to |connections|
        invariant Valid()
        invariant connection == MarkChanging(old(connection), ks * accepted * Elems(connections[..i]))
        invariant requests == old(requests) + Restrict(connections[..i], ks)
      {
        Listings(old(State()));
        ListDistinct(connections, old(connection).Keys);
        MarkNext(port, old(connection), accepted, connections, i);
        var k := connections[i];
        ConnectionEnds(State(), k);
        EligibleWhen(port, old(connection), k);
        if connection[k].hidden && !connection[k].changing && !port[connection[k].port1].hidden && !port[connection[k].port2].hidden {
          ghost var t := State();
          TouchLink(t, mirror, k, connection[k].(changing := k in accepted));
          connection := connection[k := connection[k].(changing := true)];
          requests := requests + [k];
          if k !in accepted {
            connection := connection[k := connection[k].(changing := false)];
          }
          assert connection == t.connection[k := t.connection[k].(changing := k in accepted)];
        }
      }
      Asked(old(State()), accepted);
    }
  
    method ShowPortInternal(p: SharedPort, accepted: set<nat>)
      requires Valid() && p in port && port[p].hidden && port[p].owner in client
      modifies this`client, this`port, this`connection, this`version, this`signals, this`mirror, this`requests
      ensures Valid() && port == old(port)[p := old(port)[p].(hidden := false)]
      ensures client == old(client)[port[p].owner := old(client)[port[p].owner].(hidden := false)]
      ensures version > old(version)
      ensures var c := port[p].owner;
              signals == old(signals) + if !hasPath then [] else
                (if old(client)[c].hidden then [Signal(old(version) + 1, ClientAppeared(c, client[c].name))] else []) +
                [Signal(version, PortAppeared(EndHere(p), port[p].flags, port[p].kind))]
      ensures connection == if hasPath && hasConnectHandler
                            then MarkChanging(old(connection), Eligible(port, old(connection)) * accepted) else old(connection)
      ensures requests == if hasPath && hasConnectHandler
                          then old(requests) + Restrict(connections, Eligible(port, old(connection))) else old(requests)
    {
      hide Sound, Seen, Tells, Logged, MarkChanging, Restrict, Eligible;
      var c := port[p].owner;
      if client[c].hidden {
        ShowClient(c);
      }
      ShowPortOfShownClient(p, accepted);
    }

    method ShowPortOfShownClient(p: SharedPort, accepted: set<nat>)
      requires Valid() && p in port && port[p].hidden && port[p].owner in client && !client[port[p].owner].hidden
      modifies this`port, this`connection, this`version, this`signals, this`mirror, this`requests
      ensures Valid() && port == old(port)[p := old(port)[p].(hidden := false)]
      ensures version == old(version) + 1
      ensures signals == old(signals) + if !hasPath then [] else
                [Signal(version, PortAppeared(EndHere(p), port[p].flags, port[p].kind))]
      ensures connection == if hasPath && hasConnectHandler
                            then MarkChanging(old(connection), Eligible(port, old(connection)) * accepted) else old(connection)
      ensures requests == if hasPath && hasConnectHandler
                          then old(requests) + Restrict(connections, Eligible(port, old(connection))) else old(requests)
    {
      hide Sound, Seen, Tells, Logged, MarkChanging, Restrict, Eligible;
      ghost var t := State();
      TouchPort(t, p, port[p].(hidden := false));
      port := port[p := port[p].(hidden := false)];
      BumpVersion();
      if hasPath {
        Topologies.ShowPort(t, mirror, p);
        Emit(Appeared(t, p), State());
        TryConnectHiddenConnections(accepted);
      }
    }

    method RenameClient(c: nat, name: string)
      requires Valid() && c in client
      modifies this`client, this`version, this`signals, this`mirror
      ensures Valid() && client == old(client)[c := old(client)[c].(name := name)]
      ensures version == old(version) + 1
      ensures signals == old(signals) +
                if hasPath && !client[c].hidden then [Signal(version, ClientRenamed(c, old(client)[c].name, name))] else []
    {
      hide Sound, Seen, Tells, Logged;
      ghost var t := State();
      TouchClient(t, c, client[c].(name := name));
      client := client[c := client[c].(name := name)];
      BumpVersion();
      if hasPath {
        Topologies.RenameClient(t, mirror, c, name);
        if !client[c].hidden {
          Emit(ClientRenamed(c, t.client[c].name, name), State());
        }
      }
    }

    method RenamePort(p: SharedPort, name: string)
      requires Valid() && p in port
      modifies this`port, this`version, this`signals, this`mirror
      ensures Valid() && port == old(port)[p := old(port)[p].(name := name)]
      ensures version == old(version) + 1
      ensures signals == old(signals) + if !hasPath || port[p].hidden then [] else
                [Signal(version, PortRenamed(port[p].owner, EndHere(p).clientName, port[p].id, old(port)[p].name, name))]
    {
      hide Sound, Seen, Tells, Logged;
      ghost var t := State();
      TouchPort(t, p, port[p].(name := name));
      port := port[p := port[p].(name := name)];
      BumpVersion();
      if hasPath {
        if !port[p].hidden {
          Topologies.RenamePort(t, mirror, p, name);
          Emit(PortRenamed(t.port[p].owner, EndOf(t, p).clientName, t.port[p].id, t.port[p].name, name), State());
        } else {
          TouchHiddenPort(t, mirror, p, port[p]);
        }
      }
    }

    /** Not announced, so only for hidden ports; the version stays. */
    method AdjustPort(p: SharedPort, kind: nat, flags: nat)
      requires Valid() && p in port && (hasPath ==> port[p].hidden)
      modifies this`port
      ensures Valid() && port == old(port)[p := old(port)[p].(kind := kind, flags := flags)]
    {
      hide Sound, Seen, Tells, Logged;
      ghost var t := State();
      TouchPort(t, p, port[p].(kind := kind, flags := flags));
      port := port[p := port[p].(kind := kind, flags := flags)];
      if hasPath {
        TouchHiddenPort(t, mirror, p, port[p]);
      }
    }

    method AddClient(handle: SharedClient, name: string, hidden: bool) returns (c: nat)
      requires Valid() && forall d <- client :: client[d].handle != handle
      modifies this`client, this`clients, this`nextClientId, this`version, this`signals, this`mirror
      ensures Valid() && c == old(nextClientId) && State() == PlusClient(old(State()), Client(handle, name, hidden, []))
      ensures client == old(client)[c := Client(handle, name, hidden, [])] && clients == old(clients) + [c] && nextClientId == c + 1
      ensures version == old(version) + 1
      ensures signals == old(signals) + if !hidden && hasPath then [Signal(version, ClientAppeared(c, name))] else []
    {
      hide Sound, Seen, Tells, Logged;
      ghost var t := State();
      AddHiddenClient(t, mirror, Client(handle, name, hidden, []));
      c := nextClientId;
      nextClientId := nextClientId + 1;
      client := client[c := Client(handle, name, hidden, [])];
      BumpVersion();
      clients := clients + [c];
      if !hidden && hasPath {
        AddShownClient(t, mirror, client[c]);
        Emit(ClientAppeared(c, name), State());
      }
    }

    method AddPort(c: nat, p: SharedPort, name: string, kind: nat, flags: nat, hidden: bool, accepted: set<nat>)
      requires Valid() && c in client && p !in port && !p.destroyed
      modifies this`client, this`clients, this`port, this`ports, this`connection, this`nextPortId, this`byId
      modifies this`version, this`signals, this`mirror, this`requests, p`refcount
      ensures Valid() && p.refcount == old(p.refcount) + 1
      ensures port == old(port)[p := Port(c, old(nextPortId), name, kind, flags, hidden)] && ports == old(ports) + [p]
      ensures client == old(client)[c := Listed(old(client)[c], p).(hidden := old(client)[c].hidden && hidden)]
      ensures var n := old(client)[c]; client == old(client)[c := n.(ports := n.ports + [p], hidden := n.hidden && hidden)]
      ensures clients == old(clients) && nextPortId == old(nextPortId) + 1
      ensures requests == if hasPath && hasConnectHandler && !hidden
                          then old(requests) + Restrict(connections, Eligible(port, old(connection))) else old(requests)
      ensures signals == old(signals) + if hidden || !hasPath then [] else
                (if old(client)[c].hidden then [Signal(old(version) + 1, ClientAppeared(c, client[c].name))] else []) +
                [Signal(version, PortAppeared(End(c, client[c].name, old(nextPortId), name), flags, kind))]
      ensures connection == if hasPath && hasConnectHandler && !hidden
                            then MarkChanging(old(connection), Eligible(port, old(connection)) * accepted) else old(connection)
      ensures version >= old(version) && old(signals) <= signals && (!hidden ==> version > old(version))
    {
      hide Sound, Seen, Tells, Logged, MarkChanging, Eligible, Restrict;
      AppendHiddenPort(c, p, Port(c, nextPortId, name, kind, flags, true));
      p.AddRef();
      if !hidden {
        ShowPortInternal(p, accepted);
      }
    }

    /** The first half of adding a port: both lists, the id, but nothing to see yet. */
    method AppendHiddenPort(c: nat, p: SharedPort, n: Port)
      requires Valid() && c in client && p !in port && n.owner == c && n.id == nextPortId && n.hidden
      modifies this`client, this`port, this`ports, this`nextPortId, this`byId
      ensures Valid() && State() == PlusPort(old(State()), p, n)
    {
      hide Sound, Seen, Tells, Logged;
      AddHiddenPort(State(), mirror, p, n);
      nextPortId := nextPortId + 1;
      client := client[c := Listed(client[c], p)];
      ports := ports + [p];
      port := port[p := n];
      byId := byId[n.id := p];
    }

    method AddConnection(p1: SharedPort, p2: SharedPort, hidden: bool) returns (k: nat)
      requires Valid() && p1 in port && p2 in port
      requires hasPath && !hidden ==> !port[p1].hidden && !port[p2].hidden
      modifies this`connection, this`connections, this`nextConnectionId, this`version, this`signals, this`mirror
      ensures Valid() && k == old(nextConnectionId) && State() == PlusConnection(old(State()), Connection(p1, p2, hidden, false))
      ensures connection == old(connection)[k := Connection(p1, p2, hidden, false)] && connections == old(connections) + [k]
      ensures nextConnectionId == k + 1 && version == old(version) + 1
      ensures var end1 := End(port[p1].owner, client[port[p1].owner].name, port[p1].id, port[p1].name);
              var end2 := End(port[p2].owner, client[port[p2].owner].name, port[p2].id, port[p2].name);
              signals == old(signals) + if !hidden && hasPath then [Signal(version, PortsConnected(end1, end2, k))] else []
    {
      hide Sound, Seen, Tells, Logged;
      ghost var t := State();
      var n := Connection(p1, p2, hidden, false);
      AddHiddenLink(t, mirror, n);
      k := nextConnectionId;
      nextConnectionId := nextConnectionId + 1;
      connection := connection[k := n];
      BumpVersion();
      connections := connections + [k];
      if !hidden && hasPath {
        AddShownLink(t, mirror, n);
        Emit(Connected(State(), k), State());
      }
    }

    /** Takes the connection at position `i` out of the list; listeners hear of it if it was visible. */
    method RemoveConnectionInternal(i: nat)
      requires Valid() && i < |connections|
      modifies this`connection, this`connections, this`version, this`signals, this`mirror
      ensures Valid() && old(connections)[i] in old(connection)
      ensures State() == Prune(old(State()), {old(connections)[i]}, {}, {})
      ensures connections == old(connections)[..i] + old(connections)[i + 1..]
      ensures old(connection)[old(connections)[i]].hidden ==> signals == old(signals)
      ensures version == old(version) + 1
      ensures var k := old(connections)[i]; var n := old(connection)[k];
              && connection == old(connection) - {k}
              && signals == old(signals) + if n.hidden || !hasPath then [] else
                   [Signal(version, PortsDisconnected(EndHere(n.port1), EndHere(n.port2), k))]
    {
      hide Sound, Seen, Tells, Logged, Restrict, Prune;
      ghost var t := State();
      Listings(t);
      var k := connections[i];
      DropHiddenLink(t, mirror, k);
      PruneConnection(t, k);
      CutOut(t, i);
      connections := connections[..i] + connections[i + 1..];
      ghost var shown := !connection[k].hidden;
      connection := connection - {k};
      BumpVersion();
      if shown && hasPath {
        DropShownLink(t, mirror, k);
        Emit(Disconnected(t, k), State());
      }
    }

    /** One connection of a port that had the connections of `t`, of which `done` are gone already. */
    method RemovePortConnection(i: nat, p: SharedPort, ghost t: Topology, ghost done: set<nat>) returns (ghost k: nat)
      requires Valid() && i < |connections| && State() == Prune(t, done, {}, {})
      requires connections[i] in connection && connection[connections[i]].Touches(p)
      modifies this`connection, this`connections, this`version, this`signals, this`mirror
      ensures Valid() && k == old(connections)[i] && State() == Prune(t, done + {k}, {}, {})
      ensures k in LinksOf(t.connection, p) && k !in done && connections == old(connections)[..i] + old(connections)[i + 1..]
      ensures version == old(version) + 1 && old(signals) <= signals
      ensures NoShownLink(t.connection, p) ==> signals == old(signals)
    {
      hide Sound, Seen, Tells, Logged, Restrict, Prune, NoShownLink;
      k := connections[i];
      PrunedConnections(t, done, {}, {});
      if NoShownLink(t.connection, p) {
        HiddenThen(t.connection, p, k);
      }
      PruneOneLink(t, done, k);
      RemoveConnectionInternal(i);
    }

    /** The walk over the connections for the port: those at the first `i` positions stay, `done` are gone. */
    ghost predicate SweptLinks(t: Topology, ks: set<nat>, done: set<nat>, i: nat)
      reads this
    {
      && Valid() && State() == Prune(t, done, {}, {}) && done <= ks && i <= |connections|
      && forall j :: 0 <= j < i ==> connections[j] !in ks
    }

    method SweepLink(i: nat, p: SharedPort, ghost t: Topology, ghost done: set<nat>)
        returns (gone: bool, ghost more: set<nat>)
      requires SweptLinks(t, LinksOf(t.connection, p), done, i) && i < |connections|
      modifies this`connection, this`connections, this`version, this`signals, this`mirror
      ensures SweptLinks(t, LinksOf(t.connection, p), more, if gone then i else i + 1)
      ensures |connections| == |old(connections)| - if gone then 1 else 0
      ensures version - |more| == old(version) - |done| && old(signals) <= signals
      ensures NoShownLink(t.connection, p) ==> signals == old(signals)
    {
      hide Sound, Seen, Tells, Logged, Restrict, Prune, NoShownLink, LinksOf, Valid;
      more := done;
      IsSound();
      Listings(State());
      PrunedConnections(t, done, {}, {});
      gone := connection[connections[i]].Touches(p);
      if gone {
        ghost var k := RemovePortConnection(i, p, t, done);
        more := done + {k};
      } else {
        NotLinked(t.connection, p, connections[i]);
      }
    }

    method RemovePortConnections(p: SharedPort)
      requires Valid()
      modifies this`connection, this`connections, this`version, this`signals, this`mirror
      ensures Valid() && State() == Prune(old(State()), LinksOf(old(connection), p), {}, {})
      ensures connection == (map k | k in old(connection) && old(connection)[k].port1 != p && old(connection)[k].port2 != p :: old(connection)[k])
      ensures connections == Restrict(old(connections), connection.Keys)
      ensures version == old(version) + |LinksOf(old(connection), p)| && old(signals) <= signals
      ensures NoShownLink(old(connection), p) ==> signals == old(signals)
    {
      hide Sound, Seen, Tells, Logged, Restrict, Prune, NoShownLink, LinksOf, Valid, SweptLinks;
      ghost var t, ks := State(), LinksOf(connection, p);
      ghost var done: set<nat> := {};
      SweptNothing(ks);
      var i := 0;
      while i < |connections|
        invariant SweptLinks(t, ks, done, i) && i <= |connections|
        invariant version - |done| == old(version) && old(signals) <= signals
        invariant NoShownLink(t.connection, p) ==> signals == old(signals)
        decreases |connections| - i
      {
        var gone;
        gone, done := SweepLink(i, p, t, done);
        if !gone {
          i := i + 1;
        }
      }
      SweptThrough(t, p, done, i);
      LinksPruned(t, p, {});
    }

    lemma SweptNothing(ks: set<nat>)
      requires Valid()
      ensures SweptLinks(State(), ks, {}, 0)
    {
      hide Sound, Seen, Tells, Logged, Restrict, Prune;
      PruneNothing(State());
    }

    lemma SweptThrough(t: Topology, p: SharedPort, done: set<nat>, i: nat)
      requires SweptLinks(t, LinksOf(t.connection, p), done, i) && i >= |connections|
      ensures Valid() && done == LinksOf(t.connection, p) && State() == Prune(t, done, {}, {})
    {
      hide Sound, Seen, Tells, Logged, Restrict, Prune, LinksOf, Valid;
      IsSound();
      PrunedConnections(t, done, {}, {});
      AllSwept(State(), LinksOf(t.connection, p));
      LinksExist(t.connection, p);
    }

    /** Takes a port without connections out of both lists. */
    method UnlistPort(p: SharedPort)
      requires Valid() && p in port && NoLink(connection, p)
      modifies this`client, this`port, this`ports, this`byId, this`signals, this`mirror
      ensures Valid() && State() == Prune(old(State()), {}, {p}, {}) && old(signals) <= signals
      ensures old(port)[p].hidden ==> signals == old(signals)
    {
      hide Sound, Seen, Tells, Logged, Restrict, Prune, Erase, NoLink;
      ghost var t := State();
      DropHiddenPort(t, mirror, p);
      PrunePort(t, p);
      PortErased(t, p);
      var node := port[p];
      client := client[node.owner := client[node.owner].(ports := Erase(client[node.owner].ports, p))];
      ports := Erase(ports, p);
      port := port - {p};
      byId := byId - {node.id};
      assert State() == WithoutPort(t, p);
      if hasPath && !node.hidden {
        DropShownPort(t, mirror, p);
        Emit(PortDisappeared(EndOf(t, p)), State());
      }
    }

    /** Drops the port and its connections. Only the connections move the version. */
    method RemovePortInternal(p: SharedPort)
      requires Valid() && p in port && p.refcount > 0 && !p.destroyed
      modifies this`client, this`port, this`ports, this`byId, this`connection, this`connections
      modifies this`version, this`signals, this`mirror, p`refcount, p`destroyed
      ensures Valid() && State() == Prune(old(State()), LinksOf(old(connection), p), {p}, {})
      ensures version == old(version) + |LinksOf(old(connection), p)| && old(signals) <= signals
      ensures p.refcount == old(p.refcount) - 1 && p.destroyed == (p.refcount == 0)
      ensures old(port)[p].hidden && NoShownLink(old(connection), p) ==> signals == old(signals)
    {
      hide Sound, Seen, Tells, Logged, Restrict, Prune, NoShownLink;
      ghost var t, ks := State(), LinksOf(connection, p);
      RemovePortConnections(p);
      PrunedConnections(t, ks, {}, {});
      PrunedPorts(t, ks, {}, {});
      p.DelRef();
      UnlistPort(p);
      PruneMore(t, ks, {}, {}, {}, {p}, {});
      assert ks + {} == ks && {} + {p} == {p};
    }

    /** The owner is returned, 0 if the port is not in this graph. */
    method RemovePort(p: SharedPort) returns (c: nat)
      requires Valid() && (p in port ==> p.refcount > 0 && !p.destroyed)
      modifies this`client, this`port, this`ports, this`byId, this`connection, this`connections
      modifies this`version, this`signals, this`mirror, p`refcount, p`destroyed
      ensures Valid() && old(signals) <= signals
      ensures p !in old(port) ==> c == 0 && State() == old(State()) && version == old(version) && signals == old(signals) && p.refcount == old(p.refcount) && p.destroyed == old(p.destroyed)
      ensures p in old(port) ==> c == old(port)[p].owner != 0 && c in client && State() == Prune(old(State()), LinksOf(old(connection), p), {p}, {})
      ensures p in old(port) ==> var o := old(port)[p].owner; var list := old(client)[o].ports;
                && port == old(port) - {p}
                && (exists i :: 0 <= i < |old(ports)| && old(ports)[i] == p && ports == old(ports)[..i] + old(ports)[i + 1..])
                && (exists j :: 0 <= j < |list| && list[j] == p
                      && client == old(client)[o := old(client)[o].(ports := list[..j] + list[j + 1..])])
                && connection == (map k | k in old(connection) && old(connection)[k].port1 != p && old(connection)[k].port2 != p :: old(connection)[k])
                && connections == Restrict(old(connections), connection.Keys)
      ensures p in old(port) ==> p.refcount == old(p.refcount) - 1 && p.destroyed == (p.refcount == 0)
      ensures p in old(port) ==> version == old(version) + |LinksOf(old(connection), p)|
    {
      hide Sound, Seen, Tells, Logged, Restrict, Prune;
      if p !in port {
        return 0;
      }
      c := port[p].owner;
      OwnerListed(State(), p);
      ClientIds(State(), c);
      LinksPruned(State(), p, {p});
      ghost var i, j := PortPruned(State(), p);
      ghost var t := State();
      RemovePortInternal(p);
      PrunedClient(t, LinksOf(t.connection, p), {p}, c);
    }

    ghost function Held(p: SharedPort): nat
      reads this
    {
      if p in port then 1 else 0
    }

    /** The ports `done` of the client are gone from `t`, and from the JACK graph if there is one. */
    ghost predicate Emptied(t: Topology, c: nat, done: set<SharedPort>, due: map<SharedPort, nat>, held: set<SharedPort>)
      requires c in t.client
      reads this, t.client[c].ports
    {
      && Valid() && State() == Prune(t, LinksOfAll(t.connection, done), done, {})
      && done <= Elems(t.client[c].ports)
      && Owed(Elems(t.client[c].ports) - done, due, held) && Released(done, due)
    }

    /** One port: first `jack`'s callback, which may drop a reference, then this graph's own entry. */
    method DropFirstPort(c: nat, jack: Graph?, ghost t: Topology, ghost done: set<SharedPort>,
                         ghost due: map<SharedPort, nat>, ghost held: set<SharedPort>) returns (p: SharedPort)
      requires c in t.client && Emptied(t, c, done, due, held) && c in client && client[c].ports != []
      requires jack != null ==> jack != this && jack.Valid()
      requires forall q <- t.client[c].ports :: q !in done ==> (q in held <==> q in HeldBy(jack))
      modifies this`client, this`port, this`ports, this`byId, this`connection, this`connections
      modifies this`version, this`signals, this`mirror, (Elems(t.client[c].ports) - done)`refcount, (Elems(t.client[c].ports) - done)`destroyed
      modifies if jack == null then {} else {jack}
      ensures p in t.client[c].ports && p !in done && Emptied(t, c, done + {p}, due, held)
      ensures old(client)[c].hidden ==> signals == old(signals)
      ensures jack != null ==> jack.Valid() && jack.port == old(jack.port) - {p}
      ensures version >= old(version) && old(signals) <= signals
      decreases if jack == null then 0 else 1, 0, 0
    {
      hide Sound, Shown, Tells, Logged, Restrict, Prune, LinksOf, LinksOfAll, Owed, Released, NoShownLink, ViewClients, ViewPorts, ViewLinks;
      ghost var rest := Elems(t.client[c].ports) - done;
      PrunedClient(t, LinksOfAll(t.connection, done), done, c);
      p := client[c].ports[0];
      ListedPort(State(), c, p);
      OneOwed(rest, due, held, p);
      if hasPath && client[c].hidden {
        HiddenClientQuiet(State(), c, p);
      }
      if jack != null {
        jack.RemovePortCallback(p);
      }
      RemovePortInternal(p);
      OneReleased(done, due, p);
      PruneOnePort(t, done, p);
      assert Elems(t.client[c].ports) - (done + {p}) == rest - {p};
    }

    /** Drops every port of the client, each first going through `jack`'s callback. */
    method EmptyClient(c: nat, jack: Graph?, ghost due: map<SharedPort, nat>)
      requires Valid() && c in client && (jack != null ==> jack != this && jack.Valid())
      requires Owed(Elems(client[c].ports), due, HeldBy(jack))
      modifies this`client, this`port, this`ports, this`byId, this`connection, this`connections
      modifies this`version, this`signals, this`mirror, client[c].ports`refcount, client[c].ports`destroyed
      modifies if jack == null then {} else {jack}
      ensures Valid() && (jack != null ==> jack.Valid() && jack.port == old(jack.port) - Elems(old(client)[c].ports))
      ensures var ps := Elems(old(client)[c].ports); State() == Prune(old(State()), LinksOfAll(old(connection), ps), ps, {})
      ensures c in client && client[c] == old(client)[c].(ports := [])
      ensures old(client)[c].hidden ==> signals == old(signals)
      ensures version >= old(version) && old(signals) <= signals
      ensures Released(Elems(old(client)[c].ports), due)
      decreases if jack == null then 0 else 1, 0, 1
    {
      hide Sound, Seen, Tells, Logged, Restrict, Prune, LinksOfAll, LinksOf, Owed, Released, Valid, Emptied, Elems;
      ghost var t, all, held := State(), Elems(client[c].ports), HeldBy(jack);
      ghost var done: set<SharedPort> := {};
      EmptiedFirst(c, due, held);
      PortsListed(t, c);
      EmptiedMeans(t, c, done, due, held);
      while client[c].ports != []
        invariant Emptied(t, c, done, due, held) && done <= all
        invariant jack != null ==> jack.Valid() && jack.port == old(jack.port) - done
        invariant c in client && client[c] == t.client[c].(ports := client[c].ports)
        invariant version >= old(version) && old(signals) <= signals
        invariant t.client[c].hidden ==> signals == old(signals)
        decreases all - done
      {
        var p := DropFirstPort(c, jack, t, done, due, held);
        assert p in all - done;
        done := done + {p};
        EmptiedMeans(t, c, done, due, held);
      }
      EmptiedMeans(t, c, done, due, held);
    }

    lemma EmptiedFirst(c: nat, due: map<SharedPort, nat>, held: set<SharedPort>)
      requires Valid() && c in client && Owed(Elems(client[c].ports), due, held)
      ensures Emptied(State(), c, {}, due, held)
    {
      hide Sound, Seen, Tells, Logged, Restrict, Prune, LinksOfAll, LinksOf, Owed, Released;
      PruneNothing(State());
      NoLinksOfNone(connection);
      NoneReleased(due);
      assert Elems(client[c].ports) - {} == Elems(client[c].ports);
    }

    lemma EmptiedMeans(t: Topology, c: nat, done: set<SharedPort>, due: map<SharedPort, nat>, held: set<SharedPort>)
      requires c in t.client && Emptied(t, c, done, due, held)
      ensures Valid() && State() == Prune(t, LinksOfAll(t.connection, done), done, {})
      ensures done <= Elems(t.client[c].ports) && Released(done, due)
      ensures c in client && client[c] == t.client[c].(ports := client[c].ports)
      ensures client[c].ports == [] ==> done == Elems(t.client[c].ports)
    {
      hide Sound, Seen, Tells, Logged, Restrict, Prune, LinksOfAll, LinksOf, Owed, Released, Valid;
      PrunedClient(t, LinksOfAll(t.connection, done), done, c);
    }

    lemma PortsListed(t: Topology, c: nat)
      requires c in t.client
      ensures forall p :: p in Elems(t.client[c].ports) <==> p in t.client[c].ports
    {
    }

    lemma IsSound()
      requires Valid()
      ensures Sound(State())
    {
    }

    /** Empties the client, then drops it. */
    method RemoveClientInternal(c: nat, jack: Graph?, ghost due: map<SharedPort, nat>)
      requires Valid() && c in client && (jack != null ==> jack != this && jack.Valid())
      requires Owed(Elems(client[c].ports), due, HeldBy(jack))
      modifies this`client, this`clients, this`port, this`ports, this`byId, this`connection, this`connections
      modifies this`version, this`signals, this`mirror, client[c].ports`refcount, client[c].ports`destroyed
      modifies if jack == null then {} else {jack}
      ensures Valid() && (jack != null ==> jack.Valid() && jack.port == old(jack.port) - Elems(old(client)[c].ports))
      ensures var ps := Elems(old(client)[c].ports); State() == Prune(old(State()), LinksOfAll(old(connection), ps), ps, {c})
      ensures client == old(client) - {c} && clients == Restrict(old(clients), client.Keys)
      ensures port == (map p | p in old(port) && old(port)[p].owner != c :: old(port)[p]) && ports == Restrict(old(ports), port.Keys)
      ensures connection == (map k | k in old(connection) && old(port)[old(connection)[k].port1].owner != c
                                     && old(port)[old(connection)[k].port2].owner != c :: old(connection)[k])
      ensures connections == Restrict(old(connections), connection.Keys)
      ensures version > old(version) && old(signals) <= signals
      ensures Released(Elems(old(client)[c].ports), due)
      ensures old(client)[c].hidden ==> signals == old(signals)
      decreases if jack == null then 0 else 1, 2
    {
      hide Sound, Seen, Tells, Logged, Restrict, Prune, LinksOfAll, Owed, Released, Valid;
      IsSound();
      ClientPruned(State(), c);
      CutOutClient(c, jack, due);
    }

    /** The same in terms of the whole graph. */
    method CutOutClient(c: nat, jack: Graph?, ghost due: map<SharedPort, nat>)
      requires Valid() && c in client && (jack != null ==> jack != this && jack.Valid())
      requires Owed(Elems(client[c].ports), due, HeldBy(jack))
      modifies this`client, this`clients, this`port, this`ports, this`byId, this`connection, this`connections
      modifies this`version, this`signals, this`mirror, client[c].ports`refcount, client[c].ports`destroyed
      modifies if jack == null then {} else {jack}
      ensures Valid() && (jack != null ==> jack.Valid() && jack.port == old(jack.port) - Elems(old(client)[c].ports))
      ensures var ps := Elems(old(client)[c].ports); State() == Prune(old(State()), LinksOfAll(old(connection), ps), ps, {c})
      ensures version > old(version) && old(signals) <= signals
      ensures Released(Elems(old(client)[c].ports), due)
      ensures old(client)[c].hidden ==> signals == old(signals)
      decreases if jack == null then 0 else 1, 1
    {
      hide Sound, Seen, Tells, Logged, Restrict, Prune, LinksOfAll, Owed, Released;
      ghost var t, ps := State(), Elems(client[c].ports);
      EmptyClient(c, jack, due);
      DropEmptyClient(c);
      PruneMore(t, LinksOfAll(t.connection, ps), ps, {}, {}, {}, {c});
      assert LinksOfAll(t.connection, ps) + {} == LinksOfAll(t.connection, ps) && ps + {} == ps && {} + {c} == {c};
    }

    method DropEmptyClient(c: nat)
      requires Valid() && c in client && client[c].ports == []
      modifies this`client, this`clients, this`version, this`signals, this`mirror
      ensures Valid() && State() == Prune(old(State()), {}, {}, {c})
      ensures version == old(version) + 1 && old(signals) <= signals
      ensures old(client)[c].hidden ==> signals == old(signals)
    {
      hide Sound, Seen, Tells, Logged, Restrict, Prune, Erase;
      ghost var t := State();
      DropHiddenClient(t, mirror, c);
      PruneClient(t, c);
      ClientErased(t, c);
      BumpVersion();
      clients := Erase(clients, c);
      var node := client[c];
      client := client - {c};
      if hasPath && !node.hidden {
        DropShownClient(t, mirror, c);
        Emit(ClientDisappeared(c, node.name), State());
      }
    }

    /** What a room does in the JACK graph for each port it loses: the port goes, and its client when empty. */
    method RemovePortCallback(p: SharedPort)
      requires Valid() && (p in port ==> p.refcount > 0 && !p.destroyed)
      modifies this, p`refcount, p`destroyed
      ensures Valid() && port == old(port) - {p}
      ensures p !in old(port) ==> State() == old(State()) && version == old(version)
      ensures p in old(port) ==> var o := old(port)[p].owner; var list := old(client)[o].ports;
                && connection == (map k | k in old(connection) && old(connection)[k].port1 != p
                                          && old(connection)[k].port2 != p :: old(connection)[k])
                && if list == [p] then client == old(client) - {o} && clients == Restrict(old(clients), client.Keys)
                   else clients == old(clients)
                        && exists j :: 0 <= j < |list| && list[j] == p
                             && client == old(client)[o := old(client)[o].(ports := list[..j] + list[j + 1..])]
      ensures p.refcount == old(p.refcount) - old(Held(p))
      ensures p.destroyed == (old(p.destroyed) || (p in old(port) && p.refcount == 0))
      decreases 0, 4
    {
      hide Sound, Seen, Tells, Logged, Restrict, Prune;
      var c := RemovePort(p);
      if c == 0 {
        assert old(port) - {p} == old(port);
        return;
      }
      if client[c].ports == [] {
        DropIdleClient(c);
        assert client == old(client) - {c};
      }
    }
  
    method DropIdleClient(c: nat)
      requires Valid() && c in client && client[c].ports == []
      modifies this`client, this`clients, this`port, this`ports, this`byId, this`connection, this`connections
      modifies this`version, this`signals, this`mirror
      ensures Valid() && client == old(client) - {c} && clients == Restrict(old(clients), client.Keys)
      ensures port == old(port) && connection == old(connection)
      decreases 0, 3
    {
      hide Sound, Seen, Tells, Logged, Restrict, Prune;
      ghost var t := State();
      RemoveClientInternal(c, null, map[]);
      PrunedMaps(t, LinksOfAll(t.connection, {}), {}, {c});
      NoLinksOfNone(t.connection);
      assert Elems(t.client[c].ports) == {};
    }

    /** A disappearing connection is forgotten if that was asked for, otherwise kept hidden for later. */
    method RemoveConnection(k: nat, force: bool)
      requires Valid() && k in connection
      requires !force && !connection[k].changing && persist ==> !connection[k].hidden
      modifies this`connection, this`connections, this`version, this`signals, this`mirror
      ensures Valid() && version == old(version) + 1 && old(signals) <= signals
      ensures connection == if force || old(connection)[k].changing || !persist then old(connection) - {k}
                            else old(connection)[k := old(connection)[k].(hidden := true)]
      ensures force || old(connection)[k].changing || !persist ==> State() == Prune(old(State()), {k}, {}, {})
      ensures !(force || old(connection)[k].changing || !persist) ==>
                connection == HideLinks(old(connection), {k}) && connections == old(connections)
    {
      hide Sound, Seen, Tells, Logged, Restrict, Prune, HideLinks, Holds;
      var i := 0;
      while i < |connections| && connections[i] != k
        invariant i <= |connections| && k !in connections[..i]
      {
        i := i + 1;
      }
      Present(State(), k);
      if force || connection[k].changing || !persist {
        RemoveConnectionInternal(i);
      } else {
        HideConnectionInternal(k);
      }
    }

    method ClearConnections()
      requires Valid()
      modifies this`connection, this`connections, this`version, this`signals, this`mirror
      ensures Valid() && version >= old(version) && old(signals) <= signals
      ensures mirror != old(mirror) ==> version > old(version)
      ensures connection == map[] && connections == []
    {
      hide Sound, Seen, Tells, Logged, Restrict, Prune;
      while connections != []
        invariant Valid() && version >= old(version) && old(signals) <= signals && (mirror != old(mirror) ==> version > old(version))
        decreases |connections|
      {
        RemoveConnectionInternal(0);
      }
      NothingListed(State());
    }

    /** Of the ports `all` this graph had, `done` are gone from it and from the JACK graph. */
    ghost predicate Cleared(all: set<SharedPort>, done: set<SharedPort>, due: map<SharedPort, nat>, held: set<SharedPort>)
      reads this, all, done
    {
      && Valid() && connection == map[] && port.Keys == all - done && done <= all
      && Owed(all - done, due, held) && Released(done, due)
    }

    method ClearFirstClient(jack: Graph?, ghost all: set<SharedPort>, ghost done: set<SharedPort>,
                            ghost due: map<SharedPort, nat>, ghost held: set<SharedPort>) returns (ghost ps: set<SharedPort>)
      requires clients != [] && Cleared(all, done, due, held)
      requires jack != null ==> jack != this && jack.Valid()
      requires forall p <- all - done :: p in held <==> p in HeldBy(jack)
      modifies this`client, this`clients, this`port, this`ports, this`byId, this`connection, this`connections
      modifies this`version, this`signals, this`mirror, (all - done)`refcount, (all - done)`destroyed
      modifies if jack == null then {} else {jack}
      ensures ps <= all - done && Cleared(all, done + ps, due, held)
      ensures client.Keys < old(client).Keys
      ensures version > old(version) && old(signals) <= signals
      ensures jack != null ==> jack.Valid() && jack.port == old(jack.port) - ps
    {
      hide Sound, Seen, Tells, Logged, Restrict, Prune, Owed, Released, LinksOfAll, LinksOf, Holds, OwnedBy, Valid;
      IsSound();
      Listings(State());
      ghost var t := State();
      var c := clients[0];
      ps := Elems(client[c].ports);
      OwnPorts(t, c);
      OwnedArePorts(port, {c});
      SomeOwed(all - done, due, held, ps, HeldBy(jack));
      assert ps <= all - done && forall i :: 0 <= i < |client[c].ports| ==> client[c].ports[i] in ps;
      CutOutClient(c, jack, due);
      PrunedMaps(t, LinksOfAll(t.connection, ps), ps, {c});
      MoreReleased(done, due, ps);
      assert all - (done + ps) == all - done - ps;
    }

    /** Everything goes; what is left of each port's count are the entries of other graphs. */
    method Clear(jack: Graph?, ghost due: map<SharedPort, nat>)
      requires Valid() && (jack != null ==> jack != this && jack.Valid())
      requires Owed(port.Keys, due, HeldBy(jack))
      modifies this`client, this`clients, this`port, this`ports, this`byId, this`connection, this`connections
      modifies this`version, this`signals, this`mirror, port.Keys`refcount, port.Keys`destroyed
      modifies if jack == null then {} else {jack}
      ensures Valid() && client == map[] && port == map[] && connection == map[]
      ensures clients == [] && ports == [] && connections == []
      ensures version >= old(version) && old(signals) <= signals && (mirror != old(mirror) ==> version > old(version))
      ensures jack != null ==> jack.Valid() && jack.port == old(jack.port) - old(port).Keys
      ensures Released(old(port).Keys, due)
    {
      hide Sound, Seen, Tells, Logged, Owed, Released, Valid;
      ghost var all, held := port.Keys, HeldBy(jack);
      ghost var done: set<SharedPort> := {};
      ClearConnections();
      NoneReleased(due);
      assert all - {} == all;
      while clients != []
        invariant Cleared(all, done, due, held)
        invariant version >= old(version) && old(signals) <= signals && (mirror != old(mirror) ==> version > old(version))
        invariant jack != null ==> jack.Valid() && jack.port == old(jack.port) - done
        decreases client.Keys
      {
        ghost var ps := ClearFirstClient(jack, all, done, due, held);
        done := done + ps;
      }
      IsSound();
      NothingListed(State());
      assert port.Keys == {};
      assert done == all;
    }

    method RemoveHiddenConnections()
      requires Valid()
      modifies this`connection, this`connections, this`version, this`signals, this`mirror
      ensures Valid() && State() == Prune(old(State()), HiddenLinks(old(connection)), {}, {})
      ensures version >= old(version) && signals == old(signals)
    {
      hide Sound, Seen, Tells, Logged, Restrict, Prune;
      ghost var t, ks := State(), HiddenLinks(connection);
      ghost var done: set<nat> := {};
      PruneNothing(t);
      var i := 0;
      while i < |connections|
        invariant i <= |connections|
        invariant Valid() && State() == Prune(t, done, {}, {}) && done <= ks
        invariant forall j :: 0 <= j < i ==> connections[j] !in ks
        invariant version >= old(version) && signals == old(signals)
        decreases |connections| - i
      {
        var k := connections[i];
        Listings(State());
        PrunedConnections(t, done, {}, {});
        if connection[k].hidden {
          PruneOneLink(t, done, k);
          RemoveConnectionInternal(i);
          done := done + {k};
        } else {
          i := i + 1;
        }
      }
      PrunedConnections(t, done, {}, {});
      AllSwept(State(), ks);
      assert done == ks;
    }

    /** A hidden client of a graph without hidden connections goes without a signal. */
    method RemoveHiddenClient(i: nat, ghost due: map<SharedPort, nat>)
      requires Valid() && hasPath && i < |clients| && clients[i] in client && client[clients[i]].hidden
      requires HiddenLinks(connection) == {} && Owed(port.Keys, due, {})
      modifies this`client, this`clients, this`port, this`ports, this`byId, this`connection, this`connections
      modifies this`version, this`signals, this`mirror, OwnedBy(port, {clients[i]})`refcount, OwnedBy(port, {clients[i]})`destroyed
      ensures Valid() && signals == old(signals)
      ensures var c := old(clients)[i]; var ps := OwnedBy(old(port), {c});
              && State() == Prune(old(State()), {}, ps, {c}) && Released(ps, due)
      ensures clients == old(clients)[..i] + old(clients)[i + 1..]
      ensures Owed(port.Keys, due, {})
    {
      hide Sound, Shown, Tells, Logged, Restrict, Prune, Owed, Released, LinksOfAll, ViewClients, ViewPorts, ViewLinks, OwnedBy, HiddenLinks;
      var c := clients[i];
      ghost var t, ps := State(), OwnedBy(port, {c});
      OwnPorts(t, c);
      NoHiddenLink(connection);
      HiddenClientBare(t, c);
      ClientCutOut(t, i);
      OwnedArePorts(port, {c});
      SomeOwed(port.Keys, due, {}, ps, {});
      RemoveClientInternal(c, null, due);
      PrunedMaps(t, {}, ps, {c});
    }

    /** Of the hidden clients of `t`, those in `done` are gone. */
    ghost predicate Swept(t: Topology, done: set<nat>, due: map<SharedPort, nat>)
      reads this, t.port.Keys, port.Keys
    {
      && Valid() && HiddenLinks(connection) == {}
      && State() == Prune(t, {}, OwnedBy(t.port, done), done)
      && (forall c <- done :: c in t.client && t.client[c].hidden)
      && Owed(port.Keys, due, {}) && Released(OwnedBy(t.port, done), due)
    }

    method SweepHiddenClient(i: nat, ghost t: Topology, ghost done: set<nat>, ghost due: map<SharedPort, nat>)
      requires hasPath && i < |clients| && clients[i] in client && client[clients[i]].hidden && Swept(t, done, due)
      modifies this`client, this`clients, this`port, this`ports, this`byId, this`connection, this`connections
      modifies this`version, this`signals, this`mirror, port.Keys`refcount, port.Keys`destroyed
      ensures Swept(t, done + {old(clients)[i]}, due) && signals == old(signals)
      ensures |clients| == |old(clients)| - 1 && clients[..i] == old(clients)[..i]
      ensures forall d <- client :: client[d].hidden == old(client)[d].hidden
      ensures client.Keys == old(client).Keys - {old(clients)[i]}
      ensures port.Keys <= old(port).Keys
    {
      hide Sound, Seen, Tells, Logged, Restrict, Prune, Owed, Released, OwnedBy, HiddenLinks;
      var c := clients[i];
      ghost var t1, ps := State(), OwnedBy(t.port, done);
      PrunedMaps(t, {}, ps, done);
      PruneOneClient(t, done, c);
      OwnedMore(t.port, done, c);
      OwnedArePorts(port, {c});
      OwnedArePorts(t.port, done);
      assert ps !! OwnedBy(port, {c});
      RemoveHiddenClient(i, due);
      PrunedMaps(t1, {}, OwnedBy(t1.port, {c}), {c});
      MoreReleased(ps, due, OwnedBy(t1.port, {c}));
      assert t1.connection - {} == t1.connection;
    }

    method RemoveHiddenClients(ghost due: map<SharedPort, nat>)
      requires Valid() && hasPath && Owed(port.Keys, due, {}) && HiddenLinks(connection) == {}
      modifies this`client, this`clients, this`port, this`ports, this`byId, this`connection, this`connections
      modifies this`version, this`signals, this`mirror, port.Keys`refcount, port.Keys`destroyed
      ensures Valid() && signals == old(signals) && HiddenClients(client) == {} && HiddenLinks(connection) == {}
      ensures var cs := HiddenClients(old(client)); var ps := OwnedBy(old(port), cs);
              && State() == Prune(old(State()), {}, ps, cs)
              && Released(ps, due) && Owed(port.Keys, due, {})
    {
      hide Sound, Seen, Tells, Logged, Restrict, Prune, Owed, Released, OwnedBy, HiddenClients, HiddenLinks, Valid;
      ghost var t := State();
      ghost var done: set<nat> := {};
      IsSound();
      PruneNothing(t);
      NoneReleased(due);
      OwnedMore(t.port, {}, 0);
      var i := 0;
      while i < |clients|
        invariant i <= |clients|
        invariant Swept(t, done, due) && signals == old(signals)
        invariant forall c <- clients[..i] :: c in client && !client[c].hidden
        invariant port.Keys <= t.port.Keys
        decreases |clients| - i
      {
        IsSound();
        Listings(State());
        var c := clients[i];
        if client[c].hidden {
          SweepHiddenClient(i, t, done, due);
          done := done + {c};
        } else {
          i := i + 1;
        }
      }
      IsSound();
      NoneHidden(State());
      PrunedMaps(t, {}, OwnedBy(t.port, done), done);
      HiddenGone(t.client, client, done);
    }

    /** Forgets what is hidden. Nobody hears of it, because nobody was told of it. */
    method RemoveHiddenObjects(ghost due: map<SharedPort, nat>)
      requires Valid() && hasPath && Owed(port.Keys, due, {})
      modifies this`client, this`clients, this`port, this`ports, this`byId, this`connection, this`connections
      modifies this`version, this`signals, this`mirror, port.Keys`refcount, port.Keys`destroyed
      ensures Valid() && signals == old(signals) && mirror == old(mirror)
      ensures var cs := HiddenClients(old(client)); var ps := OwnedBy(old(port), cs);
              && State() == Prune(old(State()), HiddenLinks(old(connection)), ps, cs)
              && Released(ps, due) && Owed(port.Keys, due, {})
      ensures HiddenClients(client) == {} && HiddenLinks(connection) == {}
      ensures client == (map c | c in old(client) && !old(client)[c].hidden :: old(client)[c])
      ensures port == (map p | p in old(port) && !old(client)[old(port)[p].owner].hidden :: old(port)[p])
      ensures connection == (map k | k in old(connection) && !old(connection)[k].hidden :: old(connection)[k])
      ensures clients == Restrict(old(clients), client.Keys) && ports == Restrict(old(ports), port.Keys)
      ensures connections == Restrict(old(connections), connection.Keys)
    {
      hide Sound, Seen, Tells, Logged, Restrict, Prune, Owed, Released, OwnedBy, HiddenClients, HiddenLinks, Replay;
      MirrorOfSignals();
      ghost var t := State();
      ShownLeft(t);
      RemoveHiddenConnections();
      NoneLeft(t.connection);
      PrunedMaps(t, HiddenLinks(t.connection), {}, {});
      HiddenUnpruned(t, State());
      assert t.port - {} == t.port;
      ghost var cs := HiddenClients(t.client);
      RemoveHiddenClients(due);
      PruneTwice(t, HiddenLinks(t.connection), OwnedBy(t.port, cs), cs);
      MirrorOfSignals();
    }

    lemma MirrorOfSignals()
      requires Valid()
      ensures Replay(NOTHING, signals) == Some(mirror)
    {
    }
  
    /** Listeners are told that the visible connections of `p` are gone; the graph itself stays. */
    method TellDisconnected(p: SharedPort)
      requires Valid() && hasPath
      modifies this`version, this`signals, this`mirror
      ensures Logged() && version >= old(version) && old(signals) <= signals
      ensures Seen(Veil(State(), ShownLinks(connection) * LinksOf(connection, p), {}), mirror)
    {
      hide Sound, Seen, Tells, Logged, Holds, Veil, ShownLinks, LinksOf;
      ghost var t, ks := State(), ShownLinks(connection) * LinksOf(connection, p);
      ListsHold(t);
      LinksInGraph(connection, p);
      SweepAll(ks, connections, connection.Keys);
      VeilNothing(t);
      for i := 0 to |connections|
        invariant Logged() && version >= old(version) && old(signals) <= signals
        invariant Seen(Veil(t, ks * Elems(connections[..i]), {}), mirror)
      {
        Listings(t);
        ListDistinct(connections, connection.Keys);
        NotYet(connections, i);
        SweepOne(ks, connections, i);
        var k := connections[i];
        ghost var swept := ks * Elems(connections[..i]);
        VeilLink(t, swept, {}, k);
        LinkShownHere(connection, p, k);
        if !connection[k].hidden && connection[k].Touches(p) {
          HideLink(Veil(t, swept, {}), mirror, k);
          SeenSound(Veil(t, swept, {}), mirror);
          Emit(Disconnected(Veil(t, swept, {}), k), Veil(t, swept + {k}, {}));
          BumpVersion();
        }
      }
    }

    /** The counterpart: the same connections are back. Each one uses up a connection id. */
    method TellConnected(p: SharedPort)
      requires Sound(State()) && Logged() && hasPath
      requires Seen(Veil(State(), ShownLinks(connection) * LinksOf(connection, p), {}), mirror)
      requires Shown(State())
      modifies this`version, this`signals, this`mirror, this`nextConnectionId
      ensures Valid() && version >= old(version) && old(signals) <= signals
      ensures nextConnectionId == old(nextConnectionId) + |Restrict(connections, ShownLinks(connection) * LinksOf(connection, p))|
    {
      hide Sound, Seen, Shown, Tells, Logged, Holds, Veil, ShownLinks, LinksOf, Restrict;
      ghost var ks := ShownLinks(connection) * LinksOf(connection, p);
      ListsHold(State());
      LinksInGraph(connection, p);
      SweepAll(ks, connections, connection.Keys);
      RestrictNothing(ks);
      assert connections[..|connections|] == connections;
      for i := 0 to |connections|
        invariant Logged() && version >= old(version) && old(signals) <= signals
        invariant nextConnectionId == old(nextConnectionId) + |Restrict(connections[..i], ks)|
        invariant Sound(State()) && Shown(State()) && Seen(Veil(State(), ks - Elems(connections[..i]), {}), mirror)
      {
        ghost var t, veiled := State(), ks - Elems(connections[..i]);
        Listings(t);
        ListDistinct(connections, connection.Keys);
        NotYet(connections, i);
        SweepOne(ks, connections, i);
        RestrictNext(connections, ks, i);
        var k := connections[i];
        VeilLink(t, veiled, {}, k);
        LinkShownHere(connection, p, k);
        if !connection[k].hidden && connection[k].Touches(p) {
          nextConnectionId := nextConnectionId + 1;
          BumpVersion();
          ShownEnds(t, veiled, k);
          ShowLink(Veil(t, veiled, {}), mirror, k, connection[k]);
          SeenSound(Veil(t, veiled, {}), mirror);
          Emit(Connected(Veil(t, veiled, {}), k), Veil(t, veiled - {k}, {}));
          SeenSound(Veil(t, veiled - {k}, {}), mirror);
          SkipConnectionId(Veil(t, veiled - {k}, {}), mirror);
          SkipUnderVeil(t, veiled - {k});
        }
      }
      VeilNothing(State());
    }

    /** The port gets a new id and owner; listeners see it go and come back with its connections. */
    method MovePort(p: SharedPort, c: nat)
      requires Valid() && p in port && port[p].owner in client && c in client
      requires hasPath && !port[p].hidden ==> !client[c].hidden
      modifies this`client, this`port, this`ports, this`byId, this`nextPortId, this`nextConnectionId
      modifies this`version, this`signals, this`mirror
      ensures Valid() && version >= old(version) + 2 && old(signals) <= signals
      ensures State() == Moved(old(State()), p, c).(nextConnectionId := nextConnectionId)
      ensures port == old(port)[p := old(port)[p].(owner := c, id := old(nextPortId))] && nextPortId == old(nextPortId) + 1
      ensures exists i :: 0 <= i < |old(ports)| && old(ports)[i] == p
                && ports == old(ports)[..i] + old(ports)[i + 1..] + [p]
      ensures var o := old(port)[p].owner; var list := old(client)[o].ports;
              exists j :: 0 <= j < |list| && list[j] == p && var left := list[..j] + list[j + 1..];
                client == if c == o then old(client)[o := old(client)[o].(ports := left + [p])]
                          else old(client)[o := old(client)[o].(ports := left)]
                                          [c := old(client)[c].(ports := old(client)[c].ports + [p])]
      ensures hasPath && !old(port)[p].hidden ==>
                var was := old(port)[p];
                && was.id !in mirror.ports && old(nextPortId) in mirror.ports
                && mirror.ports[old(nextPortId)] == PortInfo(c, was.name, was.flags, was.kind)
                && forall k <- connection :: !connection[k].hidden && (connection[k].port1 == p || connection[k].port2 == p) ==>
                     k in mirror.links
                     && mirror.links[k] == Link(port[connection[k].port1].id, port[connection[k].port2].id)
      ensures nextConnectionId == old(nextConnectionId) +
                if hasPath && !old(port)[p].hidden then |Restrict(connections, ShownLinks(connection) * LinksOf(connection, p))| else 0
    {
      hide Sound, Shown, Seen, Tells, Logged, ShownLinks, LinksOf, Moved, Restrict, Valid;
      IsSound();
      ghost var t := State();
      MovedIs(t, p, c);
      ghost var i, j := MovedFields(t, p, c);
      Move(p, c);
      if hasPath && !t.port[p].hidden {
        MovedSeen(t, p, c);
      }
    }

    lemma MovedIs(t: Topology, p: SharedPort, c: nat)
      requires p in t.port && t.port[p].owner in t.client && c in t.client
      ensures Moved(t, p, c).port == t.port[p := t.port[p].(owner := c, id := t.nextPortId)]
      ensures Moved(t, p, c).nextPortId == t.nextPortId + 1
    {
    }

    method Move(p: SharedPort, c: nat)
      requires Valid() && p in port && port[p].owner in client && c in client
      requires hasPath && !port[p].hidden ==> !client[c].hidden
      modifies this`client, this`port, this`ports, this`byId, this`nextPortId, this`nextConnectionId
      modifies this`version, this`signals, this`mirror
      ensures Valid() && version >= old(version) + 2 && old(signals) <= signals
      ensures State() == Moved(old(State()), p, c).(nextConnectionId := nextConnectionId)
      ensures nextConnectionId == old(nextConnectionId) +
                if hasPath && !old(port)[p].hidden then |Restrict(connections, ShownLinks(connection) * LinksOf(connection, p))| else 0
    {
      hide Sound, Shown, Seen, Tells, Logged, Veil, ShownLinks, LinksOf, Moved, NoShownLink, Restrict;
      ghost var t := State();
      var node := port[p];
      if hasPath {
        SeenSound(t, mirror);
      }
      BumpVersion();
      if hasPath && !node.hidden {
        TellDisconnected(p);
        TellPortGone(p);
      } else if hasPath {
        HiddenPortLinks(t, mirror, p);
      }
      HiddenPortMoved(t, mirror, p, c);
      Relist(p, c);
      BumpVersion();
      if hasPath && !node.hidden {
        TellPortBack(t, p, c);
        TellConnected(p);
      }
    }

    /** The listener has the port under its new owner and id, and no port under the old id. */
    lemma MovedSeen(t: Topology, p: SharedPort, c: nat)
      requires Valid() && hasPath && Sound(t) && p in t.port && !t.port[p].hidden && p in port && c in t.client
      requires port == t.port[p := t.port[p].(owner := c, id := t.nextPortId)]
      ensures var was := t.port[p];
              && was.id !in mirror.ports && t.nextPortId in mirror.ports
              && mirror.ports[t.nextPortId] == PortInfo(c, was.name, was.flags, was.kind)
      ensures forall k <- connection :: connection[k].port1 in port && connection[k].port2 in port
      ensures forall k <- connection :: !connection[k].hidden ==>
                k in mirror.links
                && mirror.links[k] == Link(port[connection[k].port1].id, port[connection[k].port2].id)
    {
      hide Seen, Logged, Holds, Partition, UniqueHandles, KeysBelow;
      SeenPorts(State(), mirror);
      SeenLinks(State(), mirror);
      FreshPortId(t, p);
    }

    /** A listener to a graph with a path has exactly what is visible in it, under its own names and ids. */
    lemma MirrorShows()
      requires Valid() && hasPath
      ensures forall c :: c in mirror.clients <==> c in client && !client[c].hidden
      ensures forall c <- mirror.clients :: mirror.clients[c] == client[c].name
      ensures forall p <- port :: !port[p].hidden ==>
                port[p].id in mirror.ports && mirror.ports[port[p].id] == PortInfo(port[p].owner, port[p].name, port[p].flags, port[p].kind)
      ensures forall i <- mirror.ports :: exists p <- port :: !port[p].hidden && port[p].id == i
      ensures forall p <- port, q <- port :: port[p].id == port[q].id ==> p == q
      ensures forall k :: k in mirror.links <==> k in connection && !connection[k].hidden
      ensures forall k <- mirror.links :: connection[k].port1 in port && connection[k].port2 in port
                && mirror.links[k] == Link(port[connection[k].port1].id, port[connection[k].port2].id)
    {
      hide Sound, Seen, Logged;
      SeenClients(State(), mirror);
      SeenPorts(State(), mirror);
      SeenLinks(State(), mirror);
    }

    /** Two `list_del`s, the new id and owner, two `list_add_tail`s. */
    method Relist(p: SharedPort, c: nat)
      requires Sound(State()) && p in port && port[p].owner in client && c in client
      modifies this`client, this`port, this`ports, this`byId, this`nextPortId
      ensures State() == Moved(old(State()), p, c)
      ensures port == old(port)[p := old(port)[p].(owner := c, id := old(nextPortId))] && nextPortId == old(nextPortId) + 1
      ensures exists i :: 0 <= i < |old(ports)| && old(ports)[i] == p
                && ports == old(ports)[..i] + old(ports)[i + 1..] + [p]
      ensures var o := old(port)[p].owner; var list := old(client)[o].ports;
              exists j :: 0 <= j < |list| && list[j] == p && var left := list[..j] + list[j + 1..];
                client == if c == o then old(client)[o := old(client)[o].(ports := left + [p])]
                          else old(client)[o := old(client)[o].(ports := left)]
                                          [c := old(client)[c].(ports := old(client)[c].ports + [p])]
    {
      hide Sound, Restrict, Erase;
      ghost var t := State();
      PortErased(t, p);
      ghost var i, j := MovedFields(t, p, c);
      var o := port[p].owner;
      client := client[o := client[o].(ports := Erase(client[o].ports, p))];
      ports := Erase(ports, p);
      byId := (byId - {port[p].id})[nextPortId := p];
      port := port[p := port[p].(owner := c, id := nextPortId)];
      nextPortId := nextPortId + 1;
      client := client[c := client[c].(ports := client[c].ports + [p])];
      ports := ports + [p];
    }

    /** With its connections veiled, the port can go. */
    ghost method TellPortGone(p: SharedPort)
      requires Logged() && hasPath && p in port && !port[p].hidden && Sound(State())
      requires Seen(Veil(State(), ShownLinks(connection) * LinksOf(connection, p), {}), mirror)
      modifies this`signals, this`mirror
      ensures Logged() && old(signals) <= signals
      ensures Seen(WithPort(Veil(State(), ShownLinks(connection) * LinksOf(connection, p), {}), p, port[p].(hidden := true)), mirror)
    {
      hide Sound, Seen, Tells, Logged, ShownLinks, LinksOf, HideLinks, NoShownLink;
      ghost var v := Veil(State(), ShownLinks(connection) * LinksOf(connection, p), {});
      VeiledLinks(connection, p);
      PortsUnveiled(port);
      Topologies.HidePort(v, mirror, p);
      SeenSound(v, mirror);
      Emit(PortDisappeared(EndOf(v, p)), WithPort(v, p, port[p].(hidden := true)));
    }

    /** Back under the new id and owner, its connections still veiled. `t` is the graph before the move. */
    ghost method TellPortBack(t: Topology, p: SharedPort, c: nat)
      requires Logged() && hasPath && p in t.port && t.port[p].owner in t.client && !t.port[p].hidden && c in t.client && !t.client[c].hidden
      requires Sound(t) && Shown(t) && State() == Moved(t, p, c) && Sound(State())
      requires Seen(WithPort(Veil(t, ShownLinks(t.connection) * LinksOf(t.connection, p), {}), p, t.port[p].(hidden := true)), mirror)
      modifies this`signals, this`mirror
      ensures Logged() && old(signals) <= signals
      ensures Shown(State()) && Seen(Veil(State(), ShownLinks(connection) * LinksOf(connection, p), {}), mirror)
    {
      hide Sound, Seen, Shown, Tells, Logged, ShownLinks, LinksOf, HideLinks, NoShownLink, Restrict, HidePorts;
      ghost var ks := ShownLinks(t.connection) * LinksOf(t.connection, p);
      ghost var t2 := WithPort(Veil(t, ks, {}), p, t.port[p].(hidden := true));
      VeiledLinks(t.connection, p);
      SeenSound(t2, mirror);
      HiddenPortMoved(t2, mirror, p, c);
      ghost var t3 := Moved(t2, p, c);
      Topologies.ShowPort(t3, mirror, p);
      SeenSound(t3, mirror);
      MovedPortShown(t, p, c, ks);
      Emit(Appeared(t3, p), WithPort(t3, p, t3.port[p].(hidden := false)));
      MovedShown(t, p, c);
    }
  
    // ----- the whole visible graph, told again

    method TellAllDisconnected()
      requires Valid() && hasPath
      modifies this`version, this`signals, this`mirror
      ensures Logged() && version >= old(version) && old(signals) <= signals
      ensures Seen(Veil(State(), ShownLinks(connection), {}), mirror)
    {
      hide Sound, Seen, Tells, Logged, Holds, Veil, ShownLinks;
      ghost var t, ks := State(), ShownLinks(connection);
      ListsHold(t);
      ShownAreKeys(t);
      SweepAll(ks, connections, connection.Keys);
      VeilNothing(t);
      for i := 0 to |connections|
        invariant Logged() && version >= old(version) && old(signals) <= signals
        invariant Seen(Veil(t, ks * Elems(connections[..i]), {}), mirror)
      {
        Listings(t);
        ListDistinct(connections, connection.Keys);
        NotYet(connections, i);
        SweepOne(ks, connections, i);
        var k := connections[i];
        ghost var v := Veil(t, ks * Elems(connections[..i]), {});
        VeilLink(t, ks * Elems(connections[..i]), {}, k);
        LinkShown(connection, k);
        if !connection[k].hidden {
          BumpVersion();
          HideLink(v, mirror, k);
          SeenSound(v, mirror);
          Emit(Disconnected(v, k), Veil(t, ks * Elems(connections[..i + 1]), {}));
        }
      }
    }

    method TellAllPortsGone()
      requires Sound(State()) && Logged() && hasPath && Seen(Veil(State(), ShownLinks(connection), {}), mirror)
      modifies this`version, this`signals, this`mirror
      ensures Logged() && version >= old(version) && old(signals) <= signals
      ensures Seen(Veil(State(), ShownLinks(connection), ShownPorts(port)), mirror)
    {
      hide Sound, Seen, Tells, Logged, Holds, Veil, ShownLinks, ShownPorts, NoShownLink;
      ghost var t, ks, ps := State(), ShownLinks(connection), ShownPorts(port);
      ListsHold(t);
      ShownAreKeys(t);
      SweepAll(ps, ports, port.Keys);
      for i := 0 to |ports|
        invariant Logged() && version >= old(version) && old(signals) <= signals
        invariant Seen(Veil(t, ks, ps * Elems(ports[..i])), mirror)
      {
        Listings(t);
        ListDistinct(ports, port.Keys);
        NotYet(ports, i);
        SweepOne(ps, ports, i);
        var p := ports[i];
        ghost var v := Veil(t, ks, ps * Elems(ports[..i]));
        VeilPort(t, ks, ps * Elems(ports[..i]), p);
        PortShown(port, p);
        AllVeiled(t, ps * Elems(ports[..i]), p);
        if !port[p].hidden {
          BumpVersion();
          Topologies.HidePort(v, mirror, p);
          SeenSound(v, mirror);
          Emit(PortDisappeared(EndOf(v, p)), Veil(t, ks, ps * Elems(ports[..i + 1])));
        }
      }
    }

    /** Each visible client goes and comes back at once. */
    method TellClientsAgain(ghost from: nat)
      requires Sound(State()) && Logged() && hasPath && from <= |signals|
      requires Seen(Veil(State(), ShownLinks(connection), ShownPorts(port)), mirror)
      modifies this`version, this`signals, this`mirror
      ensures Logged() && version >= old(version) && old(signals) <= signals
      ensures Seen(Veil(State(), ShownLinks(connection), ShownPorts(port)), mirror)
      ensures forall c <- client :: !client[c].hidden ==> Announced(signals, from, ClientAppeared(c, client[c].name))
    {
      hide Sound, Seen, Tells, Logged, Holds, ShownLinks, ShownPorts, HideLinks, HidePorts, NoShownPort, Announced;
      ghost var t := State();
      ghost var v := Veil(t, ShownLinks(connection), ShownPorts(port));
      for i := 0 to |clients|
        invariant Logged() && version >= old(version) && old(signals) <= signals
        invariant Seen(v, mirror)
        invariant forall j :: 0 <= j < i && clients[j] in client && !client[clients[j]].hidden ==>
                    Announced(signals, from, ClientAppeared(clients[j], client[clients[j]].name))
      {
        Listings(t);
        var c := clients[i];
        if !client[c].hidden {
          ghost var before := signals;
          AllPortsVeiled(t, c);
          BumpVersion();
          Topologies.HideClient(v, mirror, c);
          Emit(ClientDisappeared(c, client[c].name), WithClient(v, c, client[c].(hidden := true)));
          BumpVersion();
          Topologies.ShowClient(WithClient(v, c, client[c].(hidden := true)), mirror, c);
          assert client[c := client[c].(hidden := true)][c := client[c]] == client;
          Emit(ClientAppeared(c, client[c].name), v);
          AnnouncedNow(signals, from);
          forall j | 0 <= j < i && clients[j] in client && !client[clients[j]].hidden
            ensures Announced(signals, from, ClientAppeared(clients[j], client[clients[j]].name))
          {
            AnnouncedStill(before, signals, from, ClientAppeared(clients[j], client[clients[j]].name));
          }
        }
      }
      EveryClientListed(t);
    }

    method TellAllPortsBack(ghost from: nat)
      requires Sound(State()) && Shown(State()) && Logged() && hasPath && from <= |signals|
      requires Seen(Veil(State(), ShownLinks(connection), ShownPorts(port)), mirror)
      modifies this`version, this`signals, this`mirror
      ensures Sound(State()) && Logged() && version >= old(version) && old(signals) <= signals
      ensures Seen(Veil(State(), ShownLinks(connection), {}), mirror)
      ensures forall p <- port :: !port[p].hidden ==> Announced(signals, from, Appeared(State(), p))
    {
      hide Sound, Seen, Shown, Tells, Logged, Holds, Veil, ShownLinks, ShownPorts, Announced, Appeared;
      ghost var t, ks, ps := State(), ShownLinks(connection), ShownPorts(port);
      ListsHold(t);
      ShownAreKeys(t);
      SweepAll(ps, ports, port.Keys);
      for i := 0 to |ports|
        invariant Logged() && version >= old(version) && old(signals) <= signals
        invariant Seen(Veil(t, ks, ps - Elems(ports[..i])), mirror)
        invariant forall j :: 0 <= j < i && ports[j] in port && !port[ports[j]].hidden ==> Announced(signals, from, Appeared(t, ports[j]))
      {
        Listings(t);
        ListDistinct(ports, port.Keys);
        NotYet(ports, i);
        SweepOne(ps, ports, i);
        var p := ports[i];
        ghost var v, before := Veil(t, ks, ps - Elems(ports[..i])), signals;
        VeilPort(t, ks, ps - Elems(ports[..i]), p);
        PortShown(port, p);
        if !port[p].hidden {
          BumpVersion();
          SeenSound(v, mirror);
          VeiledEnd(t, ks, ps - Elems(ports[..i]), p);
          ShownOwner(t, ks, ps - Elems(ports[..i]), p);
          Topologies.ShowPort(v, mirror, p);
          assert port[p] == v.port[p].(hidden := false);
          Emit(Appeared(v, p), Veil(t, ks, ps - Elems(ports[..i + 1])));
          AnnouncedNow(signals, from);
          forall j | 0 <= j < i && ports[j] in port && !port[ports[j]].hidden ensures Announced(signals, from, Appeared(t, ports[j])) {
            AnnouncedStill(before, signals, from, Appeared(t, ports[j]));
          }
        }
      }
      EveryPortListed(t);
    }

    method TellAllConnected(ghost from: nat)
      requires Sound(State()) && Shown(State()) && Logged() && hasPath && from <= |signals|
      requires Seen(Veil(State(), ShownLinks(connection), {}), mirror)
      modifies this`version, this`signals, this`mirror
      ensures Valid() && version >= old(version) && old(signals) <= signals
      ensures forall k <- connection :: !connection[k].hidden ==> Announced(signals, from, Connected(State(), k))
    {
      hide Sound, Seen, Shown, Tells, Logged, Holds, Veil, ShownLinks, Announced, Connected;
      ghost var t, ks := State(), ShownLinks(connection);
      ListsHold(t);
      ShownAreKeys(t);
      SweepAll(ks, connections, connection.Keys);
      for i := 0 to |connections|
        invariant Logged() && version >= old(version) && old(signals) <= signals
        invariant Seen(Veil(t, ks - Elems(connections[..i]), {}), mirror)
        invariant forall j :: 0 <= j < i && connections[j] in connection && !connection[connections[j]].hidden ==>
                    Announced(signals, from, Connected(t, connections[j]))
      {
        Listings(t);
        ListDistinct(connections, connection.Keys);
        NotYet(connections, i);
        SweepOne(ks, connections, i);
        var k := connections[i];
        ghost var v, before := Veil(t, ks - Elems(connections[..i]), {}), signals;
        VeilLink(t, ks - Elems(connections[..i]), {}, k);
        LinkShown(connection, k);
        if !connection[k].hidden {
          BumpVersion();
          SeenSound(v, mirror);
          VeiledConnection(t, ks - Elems(connections[..i]), {}, k);
          ShownEnds(t, ks - Elems(connections[..i]), k);
          ShowLink(v, mirror, k, connection[k]);
          Emit(Connected(v, k), Veil(t, ks - Elems(connections[..i + 1]), {}));
          AnnouncedNow(signals, from);
          forall j | 0 <= j < i && connections[j] in connection && !connection[connections[j]].hidden
            ensures Announced(signals, from, Connected(t, connections[j]))
          {
            AnnouncedStill(before, signals, from, Connected(t, connections[j]));
          }
        }
      }
      EveryConnectionListed(t);
      VeilNothing(t);
    }

    /** Nothing changes, yet every visible object is announced again and listeners end where they were. */
    method TrickDicts()
      requires Valid() && hasPath
      modifies this`version, this`signals, this`mirror
      ensures Valid() && mirror == old(mirror) && version >= old(version) && old(signals) <= signals
      ensures forall c <- client :: !client[c].hidden ==>
                exists i :: |old(signals)| <= i < |signals| && signals[i].change == ClientAppeared(c, client[c].name)
      ensures forall p <- port :: !port[p].hidden ==>
                exists i :: |old(signals)| <= i < |signals| && signals[i].change == PortAppeared(EndHere(p), port[p].flags, port[p].kind)
      ensures forall k <- connection :: !connection[k].hidden ==>
                exists i :: |old(signals)| <= i < |signals|
                  && signals[i].change == PortsConnected(EndHere(connection[k].port1), EndHere(connection[k].port2), k)
    {
      hide Sound, Seen, Shown, Tells, Logged, Veil, ShownLinks, ShownPorts, Announced, Appeared, Connected;
      ghost var from := |signals|;
      SeenSound(State(), mirror);
      TellAllDisconnected();
      TellAllPortsGone();
      TellClientsAgain(from);
      ghost var s1 := signals;
      TellAllPortsBack(from);
      ghost var s2 := signals;
      TellAllConnected(from);
      forall c <- client | !client[c].hidden ensures Announced(signals, from, ClientAppeared(c, client[c].name)) {
        AnnouncedStill(s1, signals, from, ClientAppeared(c, client[c].name));
      }
      forall p <- port | !port[p].hidden ensures Announced(signals, from, Appeared(State(), p)) {
        AnnouncedStill(s2, signals, from, Appeared(State(), p));
      }
      SeenOnce(State(), mirror, old(mirror));
      AllAnnounced(from);
    }
  
    lemma AllAnnounced(from: nat)
      requires Valid()
      requires forall c <- client :: !client[c].hidden ==> Announced(signals, from, ClientAppeared(c, client[c].name))
      requires forall p <- port :: !port[p].hidden ==> Announced(signals, from, Appeared(State(), p))
      requires forall k <- connection :: !connection[k].hidden ==> Announced(signals, from, Connected(State(), k))
      ensures forall c <- client :: !client[c].hidden ==>
                exists i :: from <= i < |signals| && signals[i].change == ClientAppeared(c, client[c].name)
      ensures forall p <- port :: port[p].owner in client
      ensures forall p <- port :: !port[p].hidden ==>
                exists i :: from <= i < |signals| && signals[i].change == PortAppeared(EndHere(p), port[p].flags, port[p].kind)
      ensures forall k <- connection :: connection[k].port1 in port && connection[k].port2 in port
      ensures forall k <- connection :: !connection[k].hidden ==>
                exists i :: from <= i < |signals|
                  && signals[i].change == PortsConnected(EndHere(connection[k].port1), EndHere(connection[k].port2), k)
    {
      hide Seen, Logged, Holds, UniqueHandles, KeysBelow, PortIds;
    }

    // ----- hiding what JACK stands behind

    method HideRealConnections(ghost live: set<nat>)
      requires Valid() && live == Real(client)
      modifies this`connection, this`version, this`signals, this`mirror
      ensures Valid() && version >= old(version) && old(signals) <= signals && (mirror != old(mirror) ==> version > old(version))
      ensures connection == HideLinks(old(connection), RealLinks(port, old(connection), live))
    {
      hide Sound, Seen, Tells, Logged, HideLinks, RealLinks, Holds;
      ghost var t := State();
      ghost var ks := RealLinks(port, connection, live);
      ListsHold(t);
      HideDone(connection, ks, connections);
      for i := 0 to |connections|
        invariant Valid() && version >= old(version) && old(signals) <= signals && (mirror != old(mirror) ==> version > old(version))
        invariant connection == HideLinks(t.connection, ks * Elems(connections[..i]))
      {
        Listings(t);
        HideNext(t.connection, ks, connections, i);
        ListDistinct(connections, t.connection.Keys);
        var k := connections[i];
        ConnectionEnds(State(), k);
        OwnerListed(State(), connection[k].port1);
        OwnerListed(State(), connection[k].port2);
        HideUntouched(t.connection, ks, connections, i);
        RealLink(port, t.connection, live, k);
        if !connection[k].hidden &&
           (client[port[connection[k].port1].owner].handle.jackId != 0 || client[port[connection[k].port2].owner].handle.jackId != 0) {
          HideConnectionInternal(k);
        }
      }
    }

    method ForgetPort(p: SharedPort)
      requires Valid() && p in port && !port[p].hidden && (hasPath ==> NoShownLink(connection, p))
      modifies this`port, this`version, this`signals, this`mirror, p`jackId
      ensures Valid() && port == old(port)[p := old(port)[p].(hidden := true)] && p.jackId == 0
      ensures version > old(version) && old(signals) <= signals
    {
      hide Sound, Seen, Tells, Logged;
      p.jackId := 0;
      HidePortInternal(p);
    }

    method HideRealPorts(ghost live: set<nat>)
      requires Valid() && live == Real(client)
      requires forall p <- RealPorts(port, live) :: NoShownLink(connection, p)
      modifies this`port, this`version, this`signals, this`mirror, port.Keys`jackId
      ensures Valid() && version >= old(version) && old(signals) <= signals && (mirror != old(mirror) ==> version > old(version))
      ensures port == HidePorts(old(port), RealPorts(old(port), live))
      ensures forall p <- port :: p.jackId == if p in RealPorts(old(port), live) then 0 else old(p.jackId)
    {
      hide Sound, Seen, Tells, Logged, HidePorts, RealPorts, Holds, NoShownLink, Valid;
      IsSound();
      ghost var t := State();
      ghost var ps := RealPorts(port, live);
      ListsHold(t);
      PortsDone(port, ps, ports);
      for i := 0 to |ports|
        invariant Valid() && version >= old(version) && old(signals) <= signals && (mirror != old(mirror) ==> version > old(version))
        invariant port == HidePorts(t.port, ps * Elems(ports[..i])) && port.Keys == t.port.Keys
        invariant forall p <- t.port :: p.jackId == if p in ps * Elems(ports[..i]) then 0 else old(p.jackId)
      {
        Listings(t);
        ListDistinct(ports, t.port.Keys);
        PortsNext(t.port, ps, ports, i);
        SweepOne(ps, ports, i);
        var p := ports[i];
        IsSound();
        OwnerListed(State(), p);
        RealPort(t.port, live, p);
        if !port[p].hidden && client[port[p].owner].handle.jackId != 0 {
          ForgetPort(p);
        }
      }
      EveryPortListed(t);
    }

    method ForgetClient(c: nat)
      requires Valid() && c in client && !client[c].hidden && (hasPath ==> NoShownPort(port, c))
      modifies this`client, this`version, this`signals, this`mirror, client[c].handle`jackId
      ensures Valid() && client == old(client)[c := old(client)[c].(hidden := true)] && old(client)[c].handle.jackId == 0
      ensures version > old(version) && old(signals) <= signals
    {
      hide Sound, Seen, Tells, Logged;
      client[c].handle.jackId := 0;
      HideClient(c);
    }

    method HideRealClients(ghost live: set<nat>)
      requires Valid() && live == Real(client)
      requires forall c <- live :: NoShownPort(port, c)
      modifies this`client, this`version, this`signals, this`mirror, (set c | c in client :: client[c].handle)`jackId
      ensures Valid() && version >= old(version) && old(signals) <= signals && (mirror != old(mirror) ==> version > old(version))
      ensures client == HideClients(old(client), RealClients(old(client), live))
      ensures forall c <- client :: client[c].handle.jackId ==
                if c in RealClients(old(client), live) then 0 else old(client[c].handle.jackId)
    {
      hide Sound, Seen, Tells, Logged, HideClients, RealClients, Holds, NoShownPort, Valid;
      IsSound();
      ghost var t := State();
      ghost var cs := RealClients(client, live);
      ListsHold(t);
      Handles(t);
      ClientsDone(client, cs, clients);
      for i := 0 to |clients|
        invariant Valid() && version >= old(version) && old(signals) <= signals && (mirror != old(mirror) ==> version > old(version))
        invariant client == HideClients(t.client, cs * Elems(clients[..i])) && client.Keys == t.client.Keys
        invariant forall c <- t.client :: t.client[c].handle.jackId == if c in cs * Elems(clients[..i]) then 0 else old(t.client[c].handle.jackId)
      {
        Listings(t);
        ListDistinct(clients, t.client.Keys);
        ClientsNext(t.client, cs, clients, i);
        SweepOne(cs, clients, i);
        NotYet(clients, i);
        var c := clients[i];
        RealClient(t.client, live, c);
        if !client[c].hidden && client[c].handle.jackId != 0 {
          ForgetClient(c);
        }
      }
      ClientsKept(t.client, cs);
    }

    /**
     * Hides exactly the visible clients with a JACK id, the visible ports they own and the visible
     * connections those have, and forgets the ids of what it hides.
     */
    method HideNonVirtual()
      requires Valid()
      modifies this`client, this`port, this`connection, this`version, this`signals, this`mirror
      modifies port.Keys`jackId, (set c | c in client :: client[c].handle)`jackId
      ensures old(forall c :: c in Real(client) <==> c in client && client[c].handle.jackId != 0)
      ensures client.Keys == old(client).Keys && port.Keys == old(port).Keys && connection.Keys == old(connection).Keys
      ensures forall c <- client :: var n := old(client)[c];
                client[c] == n.(hidden := n.hidden || c in old(Real(client)))
      ensures forall p <- port :: var n := old(port)[p];
                port[p] == n.(hidden := n.hidden || n.owner in old(Real(client)))
      ensures forall k <- connection :: var n := old(connection)[k];
                && n.port1 in old(port) && n.port2 in old(port)
                && connection[k] == n.(hidden := n.hidden || old(port)[n.port1].owner in old(Real(client))
                                                 || old(port)[n.port2].owner in old(Real(client)))
      ensures forall p <- port ::
                p.jackId == if !old(port)[p].hidden && old(port)[p].owner in old(Real(client)) then 0 else old(p.jackId)
      ensures forall c <- client ::
                client[c].handle.jackId == if old(client)[c].hidden then old(client[c].handle.jackId) else 0
      ensures Valid() && version >= old(version) && old(signals) <= signals && (mirror != old(mirror) ==> version > old(version))
    {
      hide Sound, Seen, Tells, Logged, HideLinks, RealLinks, HidePorts, RealPorts, HideClients, RealClients, NoShownLink, NoShownPort, Real;
      ghost var live := Real(client);
      ghost var t := State();
      AllReal(client);
      HideRealConnections(live);
      RealLinksHidden(old(port), old(connection), live);
      HideRealPorts(live);
      RealPortsHidden(old(port), live);
      HideRealClients(live);
      PortsKept(old(port), RealPorts(old(port), live));
      ClientsKept(old(client), RealClients(old(client), live));
      RealHidden(t, live);
    }
  }
}
