/** Which part of a virtual graph is saved, and whether a loader can put it together again. */
module SaveFilter {
  import opened Lists
  import opened Topologies
  import opened Graphs

  /** Who owns what: the app of a port if it has one, the clients with an app, and the supervisor's apps. */
  datatype Apps = Apps(portApp: map<SharedPort, nat>, clientApps: set<nat>, running: map<nat, bool>)

  datatype SavedClient = SavedClient(id: nat, ports: seq<SharedPort>)

  /** `is_hidden_port_interesting`: a port of a managed app that is stopped. */
  predicate Interesting(apps: Apps, p: SharedPort) {
    p in apps.portApp && apps.portApp[p] in apps.running && !apps.running[apps.portApp[p]]
  }

  // ----- what is meant to be kept

  predicate KeepsClient(client: Clients, apps: Apps, c: nat) {
    c in client && (client[c].hidden ==> c in apps.clientApps)
  }

  predicate KeepsPort(client: Clients, port: Ports, apps: Apps, p: SharedPort) {
    p in port && KeepsClient(client, apps, port[p].owner) && (port[p].hidden ==> Interesting(apps, p))
  }

  predicate KeepsLink(port: Ports, connection: Connections, apps: Apps, k: nat) {
    k in connection && connection[k].port1 in port && connection[k].port2 in port
    && (connection[k].hidden ==>
          && (port[connection[k].port1].hidden ==> Interesting(apps, connection[k].port1))
          && (port[connection[k].port2].hidden ==> Interesting(apps, connection[k].port2)))
  }

  ghost function KeptClients(t: Topology, apps: Apps): set<nat> {
    set c | c in t.client && KeepsClient(t.client, apps, c)
  }

  ghost function KeptPorts(t: Topology, apps: Apps): set<SharedPort> {
    set p | p in t.port && KeepsPort(t.client, t.port, apps, p)
  }

  ghost function KeptLinks(t: Topology, apps: Apps): set<nat> {
    set k | k in t.connection && KeepsLink(t.port, t.connection, apps, k)
  }

  /** The saved nodes are the kept clients in order, each with its kept ports in order. */
  ghost predicate SavesNodes(t: Topology, apps: Apps, list: seq<nat>, nodes: seq<SavedClient>) {
    var kept := Restrict(list, KeptClients(t, apps));
    && |nodes| == |kept|
    && forall i :: 0 <= i < |nodes| ==>
         && nodes[i].id == kept[i] && kept[i] in t.client
         && nodes[i].ports == Restrict(t.client[kept[i]].ports, KeptPorts(t, apps))
  }

  // ----- the same, spelled out

  lemma PortsSaved(t: Topology, apps: Apps, c: nat, saved: seq<SharedPort>)
    requires Sound(t) && c in t.client && saved == Restrict(t.client[c].ports, KeptPorts(t, apps))
    ensures saved == Restrict(t.client[c].ports, Elems(saved))
    ensures forall p :: p in saved <==>
              && KeepsClient(t.client, apps, c) && p in t.port && t.port[p].owner == c
              && (t.port[p].hidden ==> p in apps.portApp && apps.portApp[p] in apps.running && !apps.running[apps.portApp[p]])
  {
    hide Holds, Joined, UniqueHandles, KeysBelow, PortIds, Restrict;
    RestrictAgain(t.client[c].ports, KeptPorts(t, apps));
    RestrictMembers(t.client[c].ports, KeptPorts(t, apps));
  }

  lemma NodesSaved(t: Topology, apps: Apps, nodes: seq<SavedClient>)
    requires Sound(t) && SavesNodes(t, apps, t.clients, nodes)
    ensures exists kept :: kept == Restrict(t.clients, Elems(kept))
              && (forall c :: c in kept <==> c in t.client && (t.client[c].hidden ==> c in apps.clientApps))
              && |nodes| == |kept| && forall i :: 0 <= i < |nodes| ==> nodes[i].id == kept[i]
    ensures forall i :: 0 <= i < |nodes| ==>
              var c, saved := nodes[i].id, nodes[i].ports;
              && c in t.client && saved == Restrict(t.client[c].ports, Elems(saved))
              && forall p :: p in saved <==>
                   && p in t.port && t.port[p].owner == c
                   && (t.port[p].hidden ==> p in apps.portApp && apps.portApp[p] in apps.running && !apps.running[apps.portApp[p]])
  {
    hide Sound, Restrict, KeptPorts;
    var kept := Restrict(t.clients, KeptClients(t, apps));
    ListsHold(t);
    RestrictAgain(t.clients, KeptClients(t, apps));
    RestrictMembers(t.clients, KeptClients(t, apps));
    forall i | 0 <= i < |nodes|
      ensures var c, saved := nodes[i].id, nodes[i].ports;
              && c in t.client && saved == Restrict(t.client[c].ports, Elems(saved))
              && forall p :: p in saved <==>
                   && p in t.port && t.port[p].owner == c
                   && (t.port[p].hidden ==> p in apps.portApp && apps.portApp[p] in apps.running && !apps.running[apps.portApp[p]])
    {
      assert kept[i] in KeptClients(t, apps);
      PortsSaved(t, apps, kept[i], nodes[i].ports);
    }
  }

  lemma LinksSaved(t: Topology, apps: Apps, links: seq<nat>)
    requires Sound(t) && links == Restrict(t.connections, KeptLinks(t, apps))
    ensures links == Restrict(t.connections, Elems(links))
    ensures forall k :: k in links <==>
              k in t.connection && var n := t.connection[k];
                n.hidden ==> forall p <- [n.port1, n.port2] ::
                  && p in t.port
                  && (t.port[p].hidden ==> p in apps.portApp && apps.portApp[p] in apps.running && !apps.running[apps.portApp[p]])
  {
    hide Partition, UniqueHandles, KeysBelow, PortIds, Restrict;
    RestrictAgain(t.connections, KeptLinks(t, apps));
    RestrictMembers(t.connections, KeptLinks(t, apps));
  }

  // ----- the writer's callbacks

  method SavePorts(g: Graph, apps: Apps, c: nat, clientVisible: bool) returns (saved: seq<SharedPort>)
    requires Sound(g.State()) && c in g.client && clientVisible == KeepsClient(g.client, apps, c)
    ensures saved == Restrict(g.client[c].ports, Elems(saved))
    ensures forall p :: p in saved <==>
              && clientVisible && p in g.port && g.port[p].owner == c
              && (g.port[p].hidden ==> p in apps.portApp && apps.portApp[p] in apps.running && !apps.running[apps.portApp[p]])
    ensures saved == Restrict(g.client[c].ports, KeptPorts(g.State(), apps))
  {
    var ports := g.client[c].ports;
    ghost var keep := KeptPorts(g.State(), apps);
    saved := [];
    assert Partition(g.client, g.port) && ports[..0] == [];
    hide Holds, Joined, KeysBelow, PortIds, UniqueHandles, Restrict;
    RestrictNothing(keep);
    for i := 0 to |ports|
      invariant saved == Restrict(ports[..i], keep)
    {
      var p := ports[i];
      assert p in ports;
      RestrictOneMore(ports, keep, i);
      if clientVisible && (!g.port[p].hidden || Interesting(apps, p)) {
        saved := saved + [p];
      }
    }
    assert ports[..|ports|] == ports;
    PortsSaved(g.State(), apps, c, saved);
  }

  /** The walk over the clients: each decides for its ports. */
  method SaveNodes(g: Graph, apps: Apps) returns (nodes: seq<SavedClient>)
    requires Sound(g.State())
    ensures exists kept :: kept == Restrict(g.clients, Elems(kept))
              && (forall c :: c in kept <==> c in g.client && (g.client[c].hidden ==> c in apps.clientApps))
              && |nodes| == |kept| && forall i :: 0 <= i < |nodes| ==> nodes[i].id == kept[i]
    ensures forall i :: 0 <= i < |nodes| ==>
              var c, saved := nodes[i].id, nodes[i].ports;
              && c in g.client && saved == Restrict(g.client[c].ports, Elems(saved))
              && forall p :: p in saved <==>
                   && p in g.port && g.port[p].owner == c
                   && (g.port[p].hidden ==> p in apps.portApp && apps.portApp[p] in apps.running && !apps.running[apps.portApp[p]])
    ensures SavesNodes(g.State(), apps, g.clients, nodes)
  {
    hide Sound, Restrict, SavesNodes;
    nodes := WalkClients(g, apps);
    NodesSaved(g.State(), apps, nodes);
  }

  method WalkClients(g: Graph, apps: Apps) returns (nodes: seq<SavedClient>)
    requires Sound(g.State())
    ensures SavesNodes(g.State(), apps, g.clients, nodes)
  {
    ghost var t := g.State();
    nodes := [];
    assert Holds(t.clients, t.client.Keys) && g.clients[..0] == [];
    RestrictNothing(KeptClients(t, apps));
    hide Sound, Holds, Restrict, KeptPorts;
    for i := 0 to |g.clients|
      invariant SavesNodes(t, apps, g.clients[..i], nodes)
    {
      var c := g.clients[i];
      assert c in g.clients && c in t.client by { HeldKey(t.clients, t.client.Keys, i); }
      RestrictOneMore(g.clients, KeptClients(t, apps), i);
      var clientVisible := !g.client[c].hidden;
      if !clientVisible && c in apps.clientApps {
        clientVisible := true;
      }
      var ports := SavePorts(g, apps, c, clientVisible);
      if clientVisible {
        nodes := nodes + [SavedClient(c, ports)];
      }
    }
    assert g.clients[..|g.clients|] == g.clients;
  }

  lemma HeldKey(list: seq<nat>, keys: set<nat>, i: nat)
    requires Holds(list, keys) && i < |list|
    ensures list[i] in keys
  {
  }

  /** The walk over the connections. A visible one has visible ends, as the writer asserts. */
  method SaveLinks(g: Graph, apps: Apps) returns (links: seq<nat>)
    requires Sound(g.State()) && Shown(g.State())
    ensures links == Restrict(g.connections, Elems(links))
    ensures forall k :: k in links <==>
              k in g.connection && var n := g.connection[k];
                n.hidden ==> forall p <- [n.port1, n.port2] ::
                  && p in g.port
                  && (g.port[p].hidden ==> p in apps.portApp && apps.portApp[p] in apps.running && !apps.running[apps.portApp[p]])
    ensures links == Restrict(g.connections, KeptLinks(g.State(), apps))
  {
    ghost var keep := KeptLinks(g.State(), apps);
    links := [];
    assert Holds(g.connections, g.connection.Keys) && Joined(g.port, g.connection) && g.connections[..0] == [];
    hide Partition, KeysBelow, PortIds, UniqueHandles, Restrict, PortsShown;
    RestrictNothing(keep);
    for i := 0 to |g.connections|
      invariant links == Restrict(g.connections[..i], keep)
    {
      var k := g.connections[i];
      assert k in g.connections;
      var n := g.connection[k];
      var hidden1, hidden2 := g.port[n.port1].hidden, g.port[n.port2].hidden;
      assert !(hidden1 || hidden2) || n.hidden;
      RestrictOneMore(g.connections, keep, i);
      if !(n.hidden && ((hidden1 && !Interesting(apps, n.port1)) || (hidden2 && !Interesting(apps, n.port2)))) {
        links := links + [k];
      }
    }
    assert g.connections[..|g.connections|] == g.connections;
    LinksSaved(g.State(), apps, links);
  }

  // ----- the loader

  /** Every port's own uuid, and the one that stands for it in this graph if it is a link port here. */
  datatype Uuids = Uuids(own: map<SharedPort, nat>, link: map<SharedPort, nat>)

  /** The uuid written for a port, and for the end of a connection. */
  function Written(uuids: Uuids, p: SharedPort): nat
    requires p in uuids.own
  {
    if p in uuids.link then uuids.link[p] else uuids.own[p]
  }

  predicate Matches(uuids: Uuids, p: SharedPort, u: nat) {
    (p in uuids.link && uuids.link[p] == u) || (p in uuids.own && uuids.own[p] == u)
  }

  /** `ladish_graph_find_port_by_uuid` among the ports loaded so far, here all of them. */
  ghost predicate Finds(nodes: seq<SavedClient>, uuids: Uuids, u: nat, p: SharedPort) {
    exists i, j :: 0 <= i < |nodes| && 0 <= j < |nodes[i].ports| && nodes[i].ports[j] == p && Matches(uuids, p, u)
  }

  ghost predicate DistinctUuids(ports: set<SharedPort>, uuids: Uuids) {
    && (forall p <- ports :: p in uuids.own)
    && (forall p <- ports, q <- ports :: uuids.own[p] == uuids.own[q] ==> p == q)
    && (forall p <- ports, q <- ports :: p in uuids.link && q in uuids.link && uuids.link[p] == uuids.link[q] ==> p == q)
    && (forall p <- ports, q <- ports :: p in uuids.link ==> uuids.link[p] != uuids.own[q])
  }

  lemma MatchesOnlyItself(ports: set<SharedPort>, uuids: Uuids, p: SharedPort, q: SharedPort)
    requires DistinctUuids(ports, uuids) && p in ports && q in ports
    ensures Matches(uuids, q, Written(uuids, p)) <==> q == p
  {
  }

  /** A saved port is found again by the uuid written for it, under its own client, and nothing else is. */
  lemma FoundIffKept(t: Topology, apps: Apps, nodes: seq<SavedClient>, uuids: Uuids, p: SharedPort)
    requires Sound(t) && SavesNodes(t, apps, t.clients, nodes) && DistinctUuids(t.port.Keys, uuids) && p in t.port
    ensures Written(uuids, p) == if p in uuids.link then uuids.link[p] else uuids.own[p]
    ensures forall q, u :: Matches(uuids, q, u) <==> (q in uuids.link && uuids.link[q] == u) || (q in uuids.own && uuids.own[q] == u)
    ensures (exists q :: q in t.port && Finds(nodes, uuids, Written(uuids, p), q)) <==> p in KeptPorts(t, apps)
    ensures forall q :: q in t.port && Finds(nodes, uuids, Written(uuids, p), q) ==> q == p
  {
    hide Restrict, Sound;
    var kept := Restrict(t.clients, KeptClients(t, apps));
    MatchesOnlyItself(t.port.Keys, uuids, p, p);
    if p in KeptPorts(t, apps) {
      KeptIsSaved(t, apps, nodes, p);
    }
    forall q | q in t.port && Finds(nodes, uuids, Written(uuids, p), q)
      ensures q == p && p in KeptPorts(t, apps)
    {
      MatchesOnlyItself(t.port.Keys, uuids, p, q);
      var i, j :| 0 <= i < |nodes| && 0 <= j < |nodes[i].ports| && nodes[i].ports[j] == q;
      RestrictMembers(t.client[kept[i]].ports, KeptPorts(t, apps));
    }
  }

  lemma KeptIsSaved(t: Topology, apps: Apps, nodes: seq<SavedClient>, p: SharedPort)
    requires Sound(t) && SavesNodes(t, apps, t.clients, nodes) && p in KeptPorts(t, apps)
    ensures exists i, j :: 0 <= i < |nodes| && 0 <= j < |nodes[i].ports| && nodes[i].ports[j] == p && nodes[i].id == t.port[p].owner
  {
    var keep := KeptClients(t, apps);
    var kept := Restrict(t.clients, keep);
    var c := t.port[p].owner;
    RestrictMembers(t.clients, keep);
    hide Restrict;
    assert c in keep && c in t.clients && p in t.client[c].ports;
    var n :| 0 <= n < |t.clients| && t.clients[n] == c;
    assert t.clients[n] in kept;
    var i :| 0 <= i < |kept| && kept[i] == c;
    RestrictMembers(t.client[c].ports, KeptPorts(t, apps));
    var m :| 0 <= m < |t.client[c].ports| && t.client[c].ports[m] == p;
    assert t.client[c].ports[m] in nodes[i].ports;
  }

  /** A port of a stopped app, in a hidden client that has no app of its own. */
  ghost predicate Stranded(t: Topology, apps: Apps, p: SharedPort) {
    p in t.port && t.port[p].hidden && Interesting(apps, p) && !KeepsClient(t.client, apps, t.port[p].owner)
  }

  /** An end of a saved connection is a saved port, unless it is stranded. */
  lemma EndKeptUnlessStranded(t: Topology, apps: Apps, k: nat, p: SharedPort)
    requires Sound(t) && Shown(t) && k in KeptLinks(t, apps) && (p == t.connection[k].port1 || p == t.connection[k].port2)
    ensures p in KeptPorts(t, apps) <==> !Stranded(t, apps, p)
  {
    hide Holds, KeysBelow, PortIds, UniqueHandles;
  }

  /** Every saved connection finds its own two ports when it is loaded, iff none of them has a stranded end. */
  lemma SavedGraphIsClosed(t: Topology, apps: Apps, nodes: seq<SavedClient>, uuids: Uuids)
    requires Sound(t) && Shown(t) && SavesNodes(t, apps, t.clients, nodes) && DistinctUuids(t.port.Keys, uuids)
    ensures (forall k <- KeptLinks(t, apps) ::
               && Finds(nodes, uuids, Written(uuids, t.connection[k].port1), t.connection[k].port1)
               && Finds(nodes, uuids, Written(uuids, t.connection[k].port2), t.connection[k].port2))
       <==> forall k <- KeptLinks(t, apps) ::
               !Stranded(t, apps, t.connection[k].port1) && !Stranded(t, apps, t.connection[k].port2)
  {
    forall k <- KeptLinks(t, apps)
      ensures Finds(nodes, uuids, Written(uuids, t.connection[k].port1), t.connection[k].port1) <==> !Stranded(t, apps, t.connection[k].port1)
      ensures Finds(nodes, uuids, Written(uuids, t.connection[k].port2), t.connection[k].port2) <==> !Stranded(t, apps, t.connection[k].port2)
    {
      EndFound(t, apps, nodes, uuids, k, t.connection[k].port1);
      EndFound(t, apps, nodes, uuids, k, t.connection[k].port2);
    }
  }

  lemma EndFound(t: Topology, apps: Apps, nodes: seq<SavedClient>, uuids: Uuids, k: nat, p: SharedPort)
    requires Sound(t) && Shown(t) && SavesNodes(t, apps, t.clients, nodes) && DistinctUuids(t.port.Keys, uuids)
    requires k in KeptLinks(t, apps) && (p == t.connection[k].port1 || p == t.connection[k].port2)
    ensures p in t.port && p in uuids.own
    ensures Finds(nodes, uuids, Written(uuids, p), p) <==> !Stranded(t, apps, p)
  {
    hide Finds, Sound, Shown, SavesNodes;
    EndKeptUnlessStranded(t, apps, k, p);
    FoundIffKept(t, apps, nodes, uuids, p);
  }

  /** A hidden client with two hidden ports and a hidden connection between them. */
  ghost function Leftovers(h: SharedClient, p: SharedPort, q: SharedPort): Topology {
    Topology(map[1 := Client(h, "a", true, [p, q])],
             map[p := Port(1, 1, "out", 0, 0, true), q := Port(1, 2, "in", 0, 0, true)],
             map[1 := Connection(p, q, true, false)],
             [1], [p, q], [1], 2, 3, 2, map[1 := p, 2 := q])
  }

  /** The two ports are those of a stopped app, and the client has none. */
  ghost function StoppedApp(p: SharedPort, q: SharedPort): Apps {
    Apps(map[p := 1, q := 1], {}, map[1 := false])
  }

  lemma LeftoversSound(h: SharedClient, p: SharedPort, q: SharedPort)
    requires p != q
    ensures Sound(Leftovers(h, p, q)) && Shown(Leftovers(h, p, q))
  {
    hide Holds, Partition, Joined, UniqueHandles, KeysBelow, PortIds, Shown, Leftovers;
    LeftoversParts(h, p, q);
    HoldsOne<nat>(1);
    HoldsTwo(p, q);
    LeftoversOwned(h, p, q);
    LeftoversIds(h, p, q);
  }

  lemma LeftoversParts(h: SharedClient, p: SharedPort, q: SharedPort)
    requires p != q
    ensures var t := Leftovers(h, p, q);
            && t.client.Keys == {1} && t.port.Keys == {p, q} && t.connection.Keys == {1}
            && t.clients == [1] && t.ports == [p, q] && t.connections == [1]
            && Joined(t.port, t.connection) && UniqueHandles(t.client) && Shown(t)
            && KeysBelow(t.client, t.nextClientId) && KeysBelow(t.connection, t.nextConnectionId)
  {
  }

  lemma HoldsOne<K>(a: K)
    ensures Holds([a], {a})
  {
  }

  lemma HoldsTwo<K>(a: K, b: K)
    requires a != b
    ensures Holds([a, b], {a, b})
  {
  }

  lemma LeftoversOwned(h: SharedClient, p: SharedPort, q: SharedPort)
    requires p != q
    ensures Partition(Leftovers(h, p, q).client, Leftovers(h, p, q).port)
  {
  }

  lemma LeftoversIds(h: SharedClient, p: SharedPort, q: SharedPort)
    requires p != q
    ensures var t := Leftovers(h, p, q); PortIds(t.port, t.byId, t.nextPortId)
  {
  }

  lemma LeftoversStranded(h: SharedClient, p: SharedPort, q: SharedPort)
    requires p != q
    ensures var t, apps := Leftovers(h, p, q), StoppedApp(p, q);
            1 in KeptLinks(t, apps) && Stranded(t, apps, p) && Stranded(t, apps, q)
  {
  }

  /** Their connection is saved, but neither end is found again, whatever uuids they have. */
  lemma LeftoversLost(h: SharedClient, p: SharedPort, q: SharedPort, nodes: seq<SavedClient>, uuids: Uuids)
    requires p != q && DistinctUuids({p, q}, uuids) && SavesNodes(Leftovers(h, p, q), StoppedApp(p, q), [1], nodes)
    ensures var t, apps := Leftovers(h, p, q), StoppedApp(p, q);
            && Sound(t) && Shown(t) && 1 in KeptLinks(t, apps) && Stranded(t, apps, p) && Stranded(t, apps, q)
            && !Finds(nodes, uuids, Written(uuids, p), p) && !Finds(nodes, uuids, Written(uuids, q), q)
  {
    hide Sound, Shown, SavesNodes, KeptLinks, Stranded, Finds, StoppedApp, DistinctUuids;
    var t, apps := Leftovers(h, p, q), StoppedApp(p, q);
    assert t.port.Keys == {p, q};
    LeftoversSound(h, p, q);
    LeftoversStranded(h, p, q);
    EndFound(t, apps, nodes, uuids, 1, p);
    EndFound(t, apps, nodes, uuids, 1, q);
  }

  /** So it is enough that the ports of apps lie in clients that are visible or have an app. */
  lemma OwnedPortsInOwnedClients(t: Topology, apps: Apps)
    requires Sound(t) && forall p <- t.port :: p in apps.portApp ==> KeepsClient(t.client, apps, t.port[p].owner)
    ensures forall p <- t.port :: !Stranded(t, apps, p)
  {
  }
}
