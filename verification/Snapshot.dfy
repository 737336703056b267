/** The answer to `GetGraph`, and why it and the signals together keep a listener up to date. */
module Snapshot {
  import opened Wrappers
  import opened Lists
  import opened Patchbay
  import opened Topologies
  import opened Graphs

  datatype PortEntry = PortEntry(id: nat, name: string, flags: nat, kind: nat)
  datatype ClientEntry = ClientEntry(id: nat, name: string, ports: seq<PortEntry>)
  datatype LinkEntry = LinkEntry(end1: End, end2: End, id: nat)

  datatype Reply =
    | KnownVersionTooNew
    | Graph(version: nat, clients: seq<ClientEntry>, links: seq<LinkEntry>)

  /** The reply lists exactly what the mirror holds. */
  ghost predicate Describes(r: Reply, m: Mirror)
    requires r.Graph?
  {
    && DescribesClients(r.clients, m.clients)
    && DescribesPorts(r.clients, m.ports)
    && DescribesEnds(r.links, m)
    && DescribesLinks(r.links, m.links)
  }

  ghost predicate DescribesClients(cs: seq<ClientEntry>, clients: map<nat, string>) {
    && (forall e <- cs :: e.id in clients && clients[e.id] == e.name)
    && (forall c <- clients :: exists e <- cs :: e.id == c)
  }

  ghost predicate DescribesPorts(cs: seq<ClientEntry>, ports: map<nat, PortInfo>) {
    && (forall e <- cs, q <- e.ports :: q.id in ports && ports[q.id] == PortInfo(e.id, q.name, q.flags, q.kind))
    && (forall p <- ports :: exists e <- cs, q <- e.ports :: q.id == p)
  }

  ghost predicate DescribesEnds(ls: seq<LinkEntry>, m: Mirror) {
    forall l <- ls :: KnowsEnd(m, l.end1) && KnowsEnd(m, l.end2)
  }

  ghost predicate DescribesLinks(ls: seq<LinkEntry>, links: map<nat, Link>) {
    && (forall l <- ls :: l.id in links && links[l.id] == Link(l.end1.portId, l.end2.portId))
    && (forall k <- links :: exists l <- ls :: l.id == k)
  }

  /** So a listener can rebuild the mirror from the reply: there is only one it describes. */
  lemma DescribesOne(r: Reply, m1: Mirror, m2: Mirror)
    requires r.Graph? && Describes(r, m1) && Describes(r, m2)
    ensures m1 == m2
  {
    hide DescribesClients, DescribesPorts, DescribesEnds, DescribesLinks;
    SameClients(r.clients, m1.clients, m2.clients);
    SamePorts(r.clients, m1.ports, m2.ports);
    SameLinks(r.links, m1.links, m2.links);
  }

  lemma SameClients(cs: seq<ClientEntry>, a: map<nat, string>, b: map<nat, string>)
    requires DescribesClients(cs, a) && DescribesClients(cs, b)
    ensures a == b
  {
    assert forall c <- a :: c in b && a[c] == b[c];
    assert forall c <- b :: c in a;
  }

  lemma SamePorts(cs: seq<ClientEntry>, a: map<nat, PortInfo>, b: map<nat, PortInfo>)
    requires DescribesPorts(cs, a) && DescribesPorts(cs, b)
    ensures a == b
  {
    PortsWithin(cs, a, b);
    PortsWithin(cs, b, a);
  }

  lemma PortsWithin(cs: seq<ClientEntry>, a: map<nat, PortInfo>, b: map<nat, PortInfo>)
    requires DescribesPorts(cs, a) && DescribesPorts(cs, b)
    ensures forall p <- a :: p in b && a[p] == b[p]
  {
    forall p <- a ensures p in b && a[p] == b[p] {
      var e, q :| e in cs && q in e.ports && q.id == p;
      assert a[q.id] == PortInfo(e.id, q.name, q.flags, q.kind);
    }
  }

  lemma SameLinks(ls: seq<LinkEntry>, a: map<nat, Link>, b: map<nat, Link>)
    requires DescribesLinks(ls, a) && DescribesLinks(ls, b)
    ensures a == b
  {
    assert forall k <- a :: k in b && a[k] == b[k];
    assert forall k <- b :: k in a;
  }

  /**
   * Ask once, then only listen: the mirror rebuilt from an answer given after the signals
   * `earlier`, brought up to date by the signals sent `since`, is what a later answer describes.
   */
  lemma AskOnceThenListen(earlier: seq<Signal>, since: seq<Signal>, first: Reply, m: Mirror, now: Mirror)
    requires Replay(NOTHING, earlier).Some? && first.Graph? && Describes(first, Replay(NOTHING, earlier).value)
    requires Replay(NOTHING, earlier + since) == Some(now)
    requires Describes(first, m)
    ensures Replay(m, since) == Some(now)
  {
    hide Describes, Apply, Replay;
    CatchUp(NOTHING, earlier, since);
    DescribesOne(first, m, Replay(NOTHING, earlier).value);
  }

  /**
   * The same for a graph: a mirror that an earlier reply describes, brought up to date by the signals the
   * graph sent since, is the later view of that graph.
   */
  twostate lemma ListenToGraph(g: Graphs.Graph, r: Reply, m: Mirror)
    requires g.hasPath && old(g.Valid()) && g.Valid() && old(g.signals) <= g.signals
    requires r.Graph? && Describes(r, old(g.mirror)) && Describes(r, m)
    ensures Replay(m, g.signals[|old(g.signals)|..]) == Some(g.mirror) && Seen(g.State(), g.mirror)
  {
    hide Describes, Replay, Sound, Seen;
    ghost var earlier := old(g.signals);
    ghost var since := g.signals[|earlier|..];
    assert g.signals == earlier + since;
    AskOnceThenListen(earlier, since, r, m, g.mirror);
  }

  ghost function EntryOf(n: Port): PortEntry {
    PortEntry(n.id, n.name, n.flags, n.kind)
  }

  ghost predicate ListsPorts(es: seq<PortEntry>, port: Ports, list: seq<SharedPort>) {
    && (forall e <- es :: exists p <- list :: p in port && !port[p].hidden && e == EntryOf(port[p]))
    && (forall p <- list :: p in port && !port[p].hidden ==> EntryOf(port[p]) in es)
  }

  /** One entry for each visible port of the list, in its order. */
  ghost predicate PortsInOrder(es: seq<PortEntry>, port: Ports, list: seq<SharedPort>) {
    var ps := Restrict(list, ShownPorts(port));
    && |es| == |ps|
    && forall i :: 0 <= i < |es| ==>
         ps[i] in port && es[i] == PortEntry(port[ps[i]].id, port[ps[i]].name, port[ps[i]].flags, port[ps[i]].kind)
  }

  ghost function ShownClients(client: Clients): set<nat> {
    set c | c in client && !client[c].hidden
  }

  ghost predicate ClientsInOrder(es: seq<ClientEntry>, client: Clients, port: Ports, list: seq<nat>) {
    var cs := Restrict(list, ShownClients(client));
    && |es| == |cs|
    && forall i :: 0 <= i < |es| ==>
         cs[i] in client && es[i].id == cs[i] && es[i].name == client[cs[i]].name
         && PortsInOrder(es[i].ports, port, client[cs[i]].ports)
  }

  ghost predicate LinksInOrder(ls: seq<LinkEntry>, t: Topology, list: seq<nat>)
    requires Sound(t)
  {
    var ks := Restrict(list, ShownLinks(t.connection));
    |ls| == |ks| && forall i :: 0 <= i < |ls| ==> ls[i].id == ks[i] && IsEntry(ls[i], t)
  }

  method PortEntries(g: Graphs.Graph, c: nat) returns (es: seq<PortEntry>)
    requires g.Valid() && c in g.client
    ensures ListsPorts(es, g.port, g.client[c].ports) && PortsInOrder(es, g.port, g.client[c].ports)
  {
    hide Sound, Seen, Restrict, ShownPorts;
    var list := g.client[c].ports;
    es := [];
    RestrictNothing(ShownPorts(g.port));
    for i := 0 to |list|
      invariant ListsPorts(es, g.port, list[..i]) && PortsInOrder(es, g.port, list[..i])
    {
      var p := list[i];
      ListedPort(g.State(), c, p);
      RestrictOneMore(list, ShownPorts(g.port), i);
      PortShown(g.port, p);
      assert list[..i + 1] == list[..i] + [p];
      var n := g.port[p];
      ghost var before := es;
      if !n.hidden {
        es := es + [PortEntry(n.id, n.name, n.flags, n.kind)];
        assert es[|before|] == EntryOf(n);
      }
      ListsMore(before, es, g.port, list[..i], p);
    }
    assert list[..|list|] == list;
  }

  lemma ListsMore(before: seq<PortEntry>, es: seq<PortEntry>, port: Ports, list: seq<SharedPort>, p: SharedPort)
    requires ListsPorts(before, port, list) && p in port
    requires es == if port[p].hidden then before else before + [EntryOf(port[p])]
    ensures ListsPorts(es, port, list + [p])
  {
    assert (list + [p])[|list|] == p;
    forall e <- es ensures exists q <- list + [p] :: q in port && !port[q].hidden && e == EntryOf(port[q]) {
      if e in before {
        var q :| q in list && q in port && !port[q].hidden && e == EntryOf(port[q]);
        assert q in list + [p];
      } else {
        assert p in list + [p];
      }
    }
    forall q <- list + [p] | q in port && !port[q].hidden ensures EntryOf(port[q]) in es {
      if q !in list {
        assert es[|es| - 1] == EntryOf(port[q]);
      }
    }
  }

  ghost predicate ListsClients(es: seq<ClientEntry>, client: Clients, port: Ports, list: seq<nat>) {
    && (forall e <- es :: e.id in client && !client[e.id].hidden && e.name == client[e.id].name && ListsPorts(e.ports, port, client[e.id].ports))
    && (forall c <- list :: c in client && !client[c].hidden ==> exists e <- es :: e.id == c)
  }

  lemma ListsOneMore(before: seq<ClientEntry>, e: ClientEntry, client: Clients, port: Ports, list: seq<nat>, c: nat)
    requires ListsClients(before, client, port, list) && c in client
    requires !client[c].hidden ==> e.id == c && e.name == client[c].name && ListsPorts(e.ports, port, client[c].ports)
    ensures ListsClients(if client[c].hidden then before else before + [e], client, port, list + [c])
  {
    hide ListsPorts;
    var es := if client[c].hidden then before else before + [e];
    assert !client[c].hidden ==> es[|before|] == e;
    forall d <- list + [c] | d in client && !client[d].hidden ensures exists f <- es :: f.id == d {
      if d == c {
        assert es[|before|].id == d;
      } else {
        var f :| f in before && f.id == d;
        assert f in es;
      }
    }
  }

  method ClientEntries(g: Graphs.Graph) returns (es: seq<ClientEntry>)
    requires g.Valid()
    ensures ListsClients(es, g.client, g.port, g.clients) && ClientsInOrder(es, g.client, g.port, g.clients)
  {
    hide Sound, Seen, ListsPorts, PortsInOrder, Restrict;
    es := [];
    RestrictNothing(ShownClients(g.client));
    for i := 0 to |g.clients|
      invariant ListsClients(es, g.client, g.port, g.clients[..i]) && ClientsInOrder(es, g.client, g.port, g.clients[..i])
    {
      Listings(g.State());
      RestrictOneMore(g.clients, ShownClients(g.client), i);
      var c := g.clients[i];
      assert g.clients[..i + 1] == g.clients[..i] + [c];
      ghost var before := es;
      var ps := [];
      if !g.client[c].hidden {
        ps := PortEntries(g, c);
        es := es + [ClientEntry(c, g.client[c].name, ps)];
      }
      ListsOneMore(before, ClientEntry(c, g.client[c].name, ps), g.client, g.port, g.clients[..i], c);
    }
    assert g.clients[..|g.clients|] == g.clients;
  }

  ghost predicate ListsLinks(ls: seq<LinkEntry>, t: Topology, list: seq<nat>)
    requires Sound(t)
  {
    && (forall l <- ls :: IsEntry(l, t))
    && (forall k <- list :: k in t.connection && !t.connection[k].hidden ==> exists l <- ls :: l.id == k)
  }

  ghost predicate IsEntry(l: LinkEntry, t: Topology)
    requires Sound(t)
  {
    && l.id in t.connection && !t.connection[l.id].hidden
    && t.connection[l.id].port1 in t.port && l.end1 == EndOf(t, t.connection[l.id].port1)
    && t.connection[l.id].port2 in t.port && l.end2 == EndOf(t, t.connection[l.id].port2)
  }

  method LinkEntries(g: Graphs.Graph) returns (ls: seq<LinkEntry>)
    requires g.Valid()
    ensures ListsLinks(ls, g.State(), g.connections) && LinksInOrder(ls, g.State(), g.connections)
  {
    hide Sound, Seen, IsEntry, Restrict, ShownLinks;
    ghost var t := g.State();
    ls := [];
    RestrictNothing(ShownLinks(t.connection));
    for i := 0 to |g.connections|
      invariant ListsLinks(ls, t, g.connections[..i]) && LinksInOrder(ls, t, g.connections[..i])
    {
      Listings(t);
      RestrictOneMore(g.connections, ShownLinks(t.connection), i);
      LinkShown(t.connection, g.connections[i]);
      var k := g.connections[i];
      assert g.connections[..i + 1] == g.connections[..i] + [k];
      ConnectionEnds(t, k);
      var p1, p2 := g.connection[k].port1, g.connection[k].port2;
      OwnerListed(t, p1);
      OwnerListed(t, p2);
      ghost var before := ls;
      if !g.connection[k].hidden {
        var n1, n2 := g.port[p1], g.port[p2];
        var l := LinkEntry(
          End(n1.owner, g.client[n1.owner].name, n1.id, n1.name),
          End(n2.owner, g.client[n2.owner].name, n2.id, n2.name), k);
        ls := ls + [l];
        EntryHere(l, t);
        assert ls[|before|] == l;
      }
      LinkListed(before, ls, t, g.connections[..i], k);
    }
    assert g.connections[..|g.connections|] == g.connections;
  }

  lemma EntryHere(l: LinkEntry, t: Topology)
    requires Sound(t) && l.id in t.connection && !t.connection[l.id].hidden
    requires t.connection[l.id].port1 in t.port && l.end1 == EndOf(t, t.connection[l.id].port1)
    requires t.connection[l.id].port2 in t.port && l.end2 == EndOf(t, t.connection[l.id].port2)
    ensures IsEntry(l, t)
  {
    hide Sound;
  }

  lemma LinkListed(before: seq<LinkEntry>, ls: seq<LinkEntry>, t: Topology, list: seq<nat>, k: nat)
    requires Sound(t) && ListsLinks(before, t, list) && k in t.connection
    requires if t.connection[k].hidden then ls == before else exists l: LinkEntry :: l.id == k && IsEntry(l, t) && ls == before + [l]
    ensures ListsLinks(ls, t, list + [k])
  {
    hide Sound, IsEntry;
    if !t.connection[k].hidden {
      var l: LinkEntry :| l.id == k && IsEntry(l, t) && ls == before + [l];
      assert ls[|before|] == l;
    }
    forall j <- list + [k] | j in t.connection && !t.connection[j].hidden ensures exists l <- ls :: l.id == j {
      if j == k {
        assert ls[|before|].id == j;
      } else {
        var l :| l in before && l.id == j;
        assert l in ls;
      }
    }
  }

  /** The lists the loops build hold exactly what listeners see. */
  lemma DescribesView(t: Topology, m: Mirror, cs: seq<ClientEntry>, ls: seq<LinkEntry>, version: nat)
    requires Seen(t, m) && ListsClients(cs, t.client, t.port, t.clients) && ListsLinks(ls, t, t.connections)
    ensures Describes(Graph(version, cs, ls), m)
  {
    hide ListsPorts, IsEntry, Holds, Partition, Joined, UniqueHandles, KeysBelow, PortIds, PortsShown, LinksShown, ViewClients, ViewPorts, ViewLinks;
    ViewOfClients(t, m, cs);
    ViewOfPorts(t, m, cs);
    ViewOfLinks(t, m, ls);
  }

  lemma ViewOfClients(t: Topology, m: Mirror, cs: seq<ClientEntry>)
    requires Seen(t, m) && ListsClients(cs, t.client, t.port, t.clients)
    ensures DescribesClients(cs, m.clients)
  {
    hide ListsPorts, Partition, Joined, UniqueHandles, KeysBelow, PortIds, PortsShown, LinksShown, ViewPorts, ViewLinks;
  }

  lemma ViewOfPorts(t: Topology, m: Mirror, cs: seq<ClientEntry>)
    requires Seen(t, m) && ListsClients(cs, t.client, t.port, t.clients)
    ensures DescribesPorts(cs, m.ports)
  {
    hide Sound, Seen;
    forall e <- cs, q <- e.ports ensures q.id in m.ports && m.ports[q.id] == PortInfo(e.id, q.name, q.flags, q.kind) {
      EntrySeen(t, m, e, q);
    }
    forall i <- m.ports ensures exists e <- cs, q <- e.ports :: q.id == i {
      var p := PortBehind(t, m, i);
      var e :| e in cs && e.id == t.port[p].owner;
      assert EntryOf(t.port[p]) in e.ports;
    }
  }

  lemma EntrySeen(t: Topology, m: Mirror, e: ClientEntry, q: PortEntry)
    requires Seen(t, m) && e.id in t.client && ListsPorts(e.ports, t.port, t.client[e.id].ports) && q in e.ports
    ensures q.id in m.ports && m.ports[q.id] == PortInfo(e.id, q.name, q.flags, q.kind)
  {
    hide Sound, Shown, ViewClients, ViewPorts, ViewLinks;
    var p :| p in t.client[e.id].ports && p in t.port && !t.port[p].hidden && q == EntryOf(t.port[p]);
    ListedPort(t, e.id, p);
    PortInView(t, m, p);
  }

  lemma PortInView(t: Topology, m: Mirror, p: SharedPort)
    requires Seen(t, m) && p in t.port && !t.port[p].hidden
    ensures t.port[p].id in m.ports && m.ports[t.port[p].id] == InfoOf(t.port[p])
  {
    hide Holds, Partition, Joined, UniqueHandles, KeysBelow, PortsShown, LinksShown, ViewClients, ViewLinks;
    PortSeen(t.port, t.byId, t.nextPortId, p);
  }

  lemma PortBehind(t: Topology, m: Mirror, i: nat) returns (p: SharedPort)
    requires Seen(t, m) && i in m.ports
    ensures p in t.port && !t.port[p].hidden && t.port[p].id == i
    ensures t.port[p].owner in t.client && p in t.client[t.port[p].owner].ports
    ensures !t.client[t.port[p].owner].hidden && t.port[p].owner in t.clients
  {
    hide Joined, UniqueHandles, KeysBelow, LinksShown, ViewClients, ViewLinks;
    p := t.byId[i];
  }

  lemma ViewOfLinks(t: Topology, m: Mirror, ls: seq<LinkEntry>)
    requires Seen(t, m) && Sound(t) && ListsLinks(ls, t, t.connections)
    ensures DescribesEnds(ls, m) && DescribesLinks(ls, m.links)
  {
    hide Seen, Sound, IsEntry;
    SeenSound(t, m);
    forall l <- ls ensures KnowsEnd(m, l.end1) && KnowsEnd(m, l.end2) && l.id in m.links && m.links[l.id] == Link(l.end1.portId, l.end2.portId) {
      LinkSeen(t, m, l);
    }
    forall k <- m.links ensures exists l <- ls :: l.id == k {
      LinkBehind(t, m, k);
    }
  }

  lemma LinkSeen(t: Topology, m: Mirror, l: LinkEntry)
    requires Seen(t, m) && IsEntry(l, t)
    ensures KnowsEnd(m, l.end1) && KnowsEnd(m, l.end2)
    ensures l.id in m.links && m.links[l.id] == Link(l.end1.portId, l.end2.portId)
  {
    hide Holds, Partition, Joined, UniqueHandles, KeysBelow, PortIds, PortsShown, ViewClients, ViewPorts;
    EndKnown(t, m, t.connection[l.id].port1);
    EndKnown(t, m, t.connection[l.id].port2);
  }

  lemma LinkBehind(t: Topology, m: Mirror, k: nat)
    requires Seen(t, m) && k in m.links
    ensures k in t.connection && !t.connection[k].hidden && k in t.connections
  {
    hide Partition, Joined, UniqueHandles, KeysBelow, PortIds, PortsShown, LinksShown, ViewClients, ViewPorts;
  }

  lemma InOrder(g: Graphs.Graph, es: seq<ClientEntry>, ls: seq<LinkEntry>)
    requires Sound(g.State()) && ClientsInOrder(es, g.client, g.port, g.clients) && LinksInOrder(ls, g.State(), g.connections)
    ensures var cs := Restrict(g.clients, set c | c in g.client && !g.client[c].hidden);
            |es| == |cs| && forall i :: 0 <= i < |cs| ==>
              && es[i].id == cs[i] && cs[i] in g.client && es[i].name == g.client[cs[i]].name
              && var ps := Restrict(g.client[cs[i]].ports, set p | p in g.port && !g.port[p].hidden);
                 |es[i].ports| == |ps| && forall j :: 0 <= j < |ps| ==>
                   && ps[j] in g.port && var n := g.port[ps[j]];
                      es[i].ports[j] == PortEntry(n.id, n.name, n.flags, n.kind)
    ensures var ks := Restrict(g.connections, set k | k in g.connection && !g.connection[k].hidden);
            |ls| == |ks| && forall i :: 0 <= i < |ks| ==>
              && ks[i] in g.connection && var n := g.connection[ks[i]];
                 && n.port1 in g.port && g.port[n.port1].owner in g.client && n.port2 in g.port && g.port[n.port2].owner in g.client
                 && ls[i] == LinkEntry(g.EndHere(n.port1), g.EndHere(n.port2), ks[i])
  {
    hide Holds, Joined, UniqueHandles, KeysBelow, PortIds, Restrict;
  }

  /**
   * A listener that already has this version gets two empty lists, one that claims a newer
   * version an error, and any other the whole visible graph.
   */
  method GetGraph(g: Graphs.Graph, known: nat) returns (r: Reply)
    requires g.Valid() && g.hasPath
    ensures r.KnownVersionTooNew? <==> known > g.version
    ensures r.Graph? ==> r.version == g.version
    ensures known == g.version ==> r.clients == [] && r.links == []
    ensures known < g.version ==> Describes(r, g.mirror)
    ensures known < g.version ==>
              var cs := Restrict(g.clients, set c | c in g.client && !g.client[c].hidden);
              |r.clients| == |cs| && forall i :: 0 <= i < |cs| ==>
                && r.clients[i].id == cs[i] && cs[i] in g.client && r.clients[i].name == g.client[cs[i]].name
                && var ps := Restrict(g.client[cs[i]].ports, set p | p in g.port && !g.port[p].hidden);
                   |r.clients[i].ports| == |ps| && forall j :: 0 <= j < |ps| ==>
                     && ps[j] in g.port && var n := g.port[ps[j]];
                        r.clients[i].ports[j] == PortEntry(n.id, n.name, n.flags, n.kind)
    ensures known < g.version ==>
              var ks := Restrict(g.connections, set k | k in g.connection && !g.connection[k].hidden);
              |r.links| == |ks| && forall i :: 0 <= i < |ks| ==>
                && ks[i] in g.connection && var n := g.connection[ks[i]];
                   && n.port1 in g.port && g.port[n.port1].owner in g.client && n.port2 in g.port && g.port[n.port2].owner in g.client
                   && r.links[i] == LinkEntry(g.EndHere(n.port1), g.EndHere(n.port2), ks[i])
  {
    hide Sound, Seen, ListsClients, ListsLinks, ClientsInOrder, LinksInOrder, Restrict, Describes;
    if known > g.version {
      return KnownVersionTooNew;
    }
    var cs, ls := [], [];
    if known < g.version {
      cs := ClientEntries(g);
      ls := LinkEntries(g);
      DescribesView(g.State(), g.mirror, cs, ls, g.version);
      InOrder(g, cs, ls);
    }
    return Graph(g.version, cs, ls);
  }

  lemma RemovedPortIsUnseen(t: Topology, m: Mirror, m': Mirror, p: SharedPort)
    requires Seen(t, m) && p in t.port && !t.port[p].hidden && Seen(Prune(t, LinksOf(t.connection, p), {p}, {}), m')
    ensures t.port[p].id in m.ports && t.port[p].id !in m'.ports
  {
    hide Holds, Partition, Joined, UniqueHandles, KeysBelow, PortsShown, LinksShown, ViewClients, ViewLinks, LinksOf;
    assert t.port[p].id in t.byId;
  }

  /**
   * Removing a port bumps the version once for each of its connections. A listener that polls with the
   * version it knew hence misses the removal of a visible port exactly if the port had no connection.
   */
  method PollAfterRemoval(g: Graphs.Graph, p: SharedPort) returns (r: Reply)
    requires g.Valid() && g.hasPath && p in g.port && !g.port[p].hidden && p.refcount > 0 && !p.destroyed
    modifies g, p
    ensures r.Graph? && g.mirror != old(g.mirror)
    ensures LinksOf(old(g.connection), p) == {} ==> r.clients == [] && r.links == []
    ensures LinksOf(old(g.connection), p) != {} ==> Describes(r, g.mirror)
  {
    hide Sound, Seen, Describes, Prune, LinksOf, Restrict;
    ghost var t, m := g.State(), g.mirror;
    var known := g.version;
    var c := g.RemovePort(p);
    RemovedPortIsUnseen(t, m, g.mirror, p);
    r := GetGraph(g, known);
  }
}
