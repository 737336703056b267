/**
 * The clients, ports and connections of one graph as a value, what a listener should see of it,
 * and what each single change to it does to that view.
 */
module Topologies {
  import opened Wrappers
  import opened Lists
  import opened Patchbay

  /** The port object that several graphs share, with the count of graphs that hold it. */
  class SharedPort {
    var refcount: nat
    var jackId: nat
    ghost var destroyed: bool

    constructor ()
      ensures refcount == 0 && jackId == 0 && !destroyed
    {
      refcount, jackId, destroyed := 0, 0, false;
    }

    method AddRef()
      requires !destroyed
      modifies this`refcount
      ensures refcount == old(refcount) + 1
    {
      refcount := refcount + 1;
    }

    method DelRef()
      requires refcount > 0
      modifies this`refcount, this`destroyed
      ensures refcount == old(refcount) - 1
      ensures destroyed == (old(destroyed) || refcount == 0)
    {
      refcount := refcount - 1;
      if refcount == 0 {
        destroyed := true;
      }
    }
  }

  class SharedClient {
    var jackId: nat

    constructor (jackId: nat)
      ensures this.jackId == jackId
    {
      this.jackId := jackId;
    }
  }

  /** List nodes. A client or connection node is named by its id, a port node by its shared port. */
  datatype Client = Client(handle: SharedClient, name: string, hidden: bool, ports: seq<SharedPort>)

  datatype Port = Port(owner: nat, id: nat, name: string, kind: nat, flags: nat, hidden: bool)

  datatype Connection = Connection(port1: SharedPort, port2: SharedPort, hidden: bool, changing: bool) {
    predicate Touches(p: SharedPort) {
      port1 == p || port2 == p
    }
  }

  /** The nodes, the three lists in order, the id counters, and each port by its id. */
  datatype Topology = Topology(
    client: map<nat, Client>, port: map<SharedPort, Port>, connection: map<nat, Connection>,
    clients: seq<nat>, ports: seq<SharedPort>, connections: seq<nat>,
    nextClientId: nat, nextPortId: nat, nextConnectionId: nat,
    byId: map<nat, SharedPort>)

  type Clients = map<nat, Client>
  type Ports = map<SharedPort, Port>
  type Connections = map<nat, Connection>

  /** `list` runs through `keys`, each once. */
  ghost predicate Holds<K>(list: seq<K>, keys: set<K>) {
    && Distinct(list)
    && (forall k <- list :: k in keys)
    && (forall k <- keys :: k in list)
  }

  /** Every client's port list has exactly its own ports: together they partition the ports. */
  ghost predicate Partition(client: Clients, port: Ports) {
    && (forall p <- port :: port[p].owner in client && p in client[port[p].owner].ports)
    && (forall c <- client :: Distinct(client[c].ports))
    && (forall c <- client :: forall p <- client[c].ports :: p in port && port[p].owner == c)
  }

  ghost predicate Joined(port: Ports, connection: Connections) {
    forall k <- connection :: connection[k].port1 in port && connection[k].port2 in port
  }

  ghost predicate KeysBelow<T>(m: map<nat, T>, next: nat) {
    0 < next && forall i <- m :: 0 < i < next
  }

  /** Port ids are non-zero, below their counter and, as `byId` finds each port, pairwise distinct. */
  ghost predicate PortIds(port: Ports, byId: map<nat, SharedPort>, next: nat) {
    && 0 < next
    && (forall p <- port :: port[p].id in byId && byId[port[p].id] == p)
    && (forall i <- byId :: 0 < i < next && byId[i] in port && port[byId[i]].id == i)
  }

  ghost predicate UniqueHandles(client: Clients) {
    forall c <- client, d <- client :: client[c].handle == client[d].handle ==> c == d
  }

  /** A visible port has a visible client. */
  ghost predicate PortsShown(client: Clients, port: Ports) {
    forall p <- port :: !port[p].hidden ==> port[p].owner in client && !client[port[p].owner].hidden
  }

  /** A visible connection has two visible ports. */
  ghost predicate LinksShown(port: Ports, connection: Connections) {
    forall k <- connection :: !connection[k].hidden ==>
      && connection[k].port1 in port && !port[connection[k].port1].hidden
      && connection[k].port2 in port && !port[connection[k].port2].hidden
  }

  ghost function ViewClients(client: Clients): map<nat, string> {
    map c | c in client && !client[c].hidden :: client[c].name
  }

  ghost function ViewPorts(port: Ports, byId: map<nat, SharedPort>): map<nat, PortInfo> {
    map i | i in byId && byId[i] in port && !port[byId[i]].hidden :: InfoOf(port[byId[i]])
  }

  ghost function ViewLinks(port: Ports, connection: Connections): map<nat, Link> {
    map k | k in connection && !connection[k].hidden && connection[k].port1 in port && connection[k].port2 in port ::
      Link(port[connection[k].port1].id, port[connection[k].port2].id)
  }

  function InfoOf(p: Port): PortInfo {
    PortInfo(p.owner, p.name, p.flags, p.kind)
  }

  /** The structure every reachable graph has. */
  ghost predicate Sound(t: Topology) {
    && Holds(t.clients, t.client.Keys) && Holds(t.ports, t.port.Keys) && Holds(t.connections, t.connection.Keys)
    && Partition(t.client, t.port) && Joined(t.port, t.connection) && UniqueHandles(t.client)
    && KeysBelow(t.client, t.nextClientId) && KeysBelow(t.connection, t.nextConnectionId)
    && PortIds(t.port, t.byId, t.nextPortId)
  }

  ghost predicate Shown(t: Topology) {
    PortsShown(t.client, t.port) && LinksShown(t.port, t.connection)
  }

  /** `m` is exactly the visible part of a sound graph that keeps the visibility rule. */
  ghost predicate Seen(t: Topology, m: Mirror) {
    && Sound(t) && Shown(t)
    && m.clients == ViewClients(t.client)
    && m.ports == ViewPorts(t.port, t.byId)
    && m.links == ViewLinks(t.port, t.connection)
  }

  ghost function EndOf(t: Topology, p: SharedPort): End
    requires Sound(t) && p in t.port
  {
    End(t.port[p].owner, t.client[t.port[p].owner].name, t.port[p].id, t.port[p].name)
  }

  ghost function Connected(t: Topology, k: nat): Change
    requires Sound(t) && k in t.connection
  {
    PortsConnected(EndOf(t, t.connection[k].port1), EndOf(t, t.connection[k].port2), k)
  }

  ghost function Disconnected(t: Topology, k: nat): Change
    requires Sound(t) && k in t.connection
  {
    PortsDisconnected(EndOf(t, t.connection[k].port1), EndOf(t, t.connection[k].port2), k)
  }

  /** The listener accepts `change` and then sees `t`. */
  ghost predicate Tells(m: Mirror, change: Change, t: Topology) {
    Apply(m, change).Some? && Seen(t, Apply(m, change).value)
  }

  // ----- connections

  ghost function WithConnection(t: Topology, k: nat, c: Connection): Topology {
    t.(connection := t.connection[k := c])
  }

  ghost function WithoutConnection(t: Topology, k: nat): Topology {
    t.(connection := t.connection - {k}, connections := Restrict(t.connections, t.connection.Keys - {k}))
  }

  ghost function PlusConnection(t: Topology, c: Connection): Topology {
    var k := t.nextConnectionId;
    t.(connection := t.connection[k := c], connections := t.connections + [k], nextConnectionId := k + 1)
  }

  /** A listener whose mirror is the view knows every visible port by its full name. */
  lemma EndKnown(t: Topology, m: Mirror, p: SharedPort)
    requires Seen(t, m) && p in t.port && !t.port[p].hidden
    ensures KnowsEnd(m, EndOf(t, p))
  {
    hide Holds, Joined, UniqueHandles, KeysBelow, LinksShown, ViewLinks;
    assert t.port[p].id in t.byId;
  }

  lemma ConnectionChange(port: Ports, connection: Connections, connections: seq<nat>, next: nat, k: nat, c: Connection)
    requires Joined(port, connection) && KeysBelow(connection, next) && Holds(connections, connection.Keys)
    requires k in connection && c.port1 == connection[k].port1 && c.port2 == connection[k].port2
    ensures var after := connection[k := c];
            Joined(port, after) && KeysBelow(after, next) && Holds(connections, after.Keys)
  {
    assert connection[k := c].Keys == connection.Keys;
  }

  lemma ConnectionView(port: Ports, connection: Connections, k: nat, c: Connection)
    requires Joined(port, connection) && LinksShown(port, connection)
    requires k in connection && c.port1 == connection[k].port1 && c.port2 == connection[k].port2
    requires !c.hidden ==> !port[c.port1].hidden && !port[c.port2].hidden
    ensures var after := connection[k := c];
            && LinksShown(port, after)
            && ViewLinks(port, after) ==
               if c.hidden then ViewLinks(port, connection) - {k}
               else ViewLinks(port, connection)[k := Link(port[c.port1].id, port[c.port2].id)]
  {
  }

  lemma HideLink(t: Topology, m: Mirror, k: nat)
    requires Seen(t, m) && k in t.connection && !t.connection[k].hidden
    ensures Tells(m, Disconnected(t, k), WithConnection(t, k, t.connection[k].(hidden := true)))
  {
    hide Holds, Partition, UniqueHandles, KeysBelow, PortIds, PortsShown, ViewClients, ViewPorts;
    EndKnown(t, m, t.connection[k].port1);
    EndKnown(t, m, t.connection[k].port2);
    ConnectionChange(t.port, t.connection, t.connections, t.nextConnectionId, k, t.connection[k].(hidden := true));
    ConnectionView(t.port, t.connection, k, t.connection[k].(hidden := true));
  }

  lemma ShowLink(t: Topology, m: Mirror, k: nat, c: Connection)
    requires Seen(t, m) && k in t.connection && t.connection[k].hidden
    requires c.port1 == t.connection[k].port1 && c.port2 == t.connection[k].port2 && !c.hidden
    requires !t.port[c.port1].hidden && !t.port[c.port2].hidden
    ensures Tells(m, Connected(t, k), WithConnection(t, k, c))
  {
    hide Holds, Partition, UniqueHandles, KeysBelow, PortIds, PortsShown, ViewClients, ViewPorts;
    EndKnown(t, m, c.port1);
    EndKnown(t, m, c.port2);
    ConnectionChange(t.port, t.connection, t.connections, t.nextConnectionId, k, c);
    ConnectionView(t.port, t.connection, k, c);
  }

  /** What is not shown: changes that keep the ends and the visibility. */
  lemma TouchLink(t: Topology, m: Mirror, k: nat, c: Connection)
    requires Sound(t) && k in t.connection
    requires c.port1 == t.connection[k].port1 && c.port2 == t.connection[k].port2
    ensures Sound(WithConnection(t, k, c))
    ensures Seen(t, m) && c.hidden == t.connection[k].hidden ==> Seen(WithConnection(t, k, c), m)
  {
    hide Holds, Partition, UniqueHandles, KeysBelow, PortIds, PortsShown, ViewClients, ViewPorts;
    ConnectionChange(t.port, t.connection, t.connections, t.nextConnectionId, k, c);
    if Seen(t, m) && c.hidden == t.connection[k].hidden {
      ConnectionView(t.port, t.connection, k, c);
    }
  }

  lemma HoldsDropped<K>(list: seq<K>, keys: set<K>, k: K)
    requires Holds(list, keys)
    ensures Holds(Restrict(list, keys - {k}), keys - {k})
  {
    RestrictMembers(list, keys - {k});
  }

  lemma HoldsAdded<K>(list: seq<K>, keys: set<K>, k: K)
    requires Holds(list, keys) && k !in keys
    ensures Holds(list + [k], keys + {k})
  {
    assert forall j <- list + [k] :: j in list || j == k;
    assert (list + [k])[|list|] == k;
    assert forall j <- list :: j in list + [k];
  }

  lemma ConnectionDropped(port: Ports, connection: Connections, connections: seq<nat>, next: nat, k: nat)
    requires Joined(port, connection) && KeysBelow(connection, next) && Holds(connections, connection.Keys)
    requires k in connection
    ensures var after := connection - {k};
            Joined(port, after) && KeysBelow(after, next) && Holds(Restrict(connections, connection.Keys - {k}), after.Keys)
  {
    HoldsDropped(connections, connection.Keys, k);
    assert (connection - {k}).Keys == connection.Keys - {k};
  }

  lemma ConnectionDroppedView(port: Ports, connection: Connections, k: nat)
    requires LinksShown(port, connection) && k in connection && connection[k].hidden
    ensures var after := connection - {k};
            LinksShown(port, after) && ViewLinks(port, after) == ViewLinks(port, connection)
  {
  }

  lemma DropHiddenLink(t: Topology, m: Mirror, k: nat)
    requires Sound(t) && k in t.connection
    ensures Sound(WithoutConnection(t, k))
    ensures Seen(t, m) && t.connection[k].hidden ==> Seen(WithoutConnection(t, k), m)
  {
    hide Holds, Partition, Joined, UniqueHandles, KeysBelow, PortIds, PortsShown, LinksShown, ViewClients, ViewPorts, ViewLinks;
    ConnectionDropped(t.port, t.connection, t.connections, t.nextConnectionId, k);
    if Seen(t, m) && t.connection[k].hidden {
      ConnectionDroppedView(t.port, t.connection, k);
    }
  }

  lemma DropShownLink(t: Topology, m: Mirror, k: nat)
    requires Seen(t, m) && k in t.connection && !t.connection[k].hidden
    ensures Tells(m, Disconnected(t, k), WithoutConnection(t, k))
  {
    hide Sound, Shown, Holds;
    HideLink(t, m, k);
    var t1 := WithConnection(t, k, t.connection[k].(hidden := true));
    DropHiddenLink(t1, Apply(m, Disconnected(t, k)).value, k);
    assert t1.connection - {k} == t.connection - {k};
    assert t1.connection.Keys == t.connection.Keys;
  }

  lemma ConnectionAdded(port: Ports, connection: Connections, connections: seq<nat>, next: nat, c: Connection)
    requires Joined(port, connection) && KeysBelow(connection, next) && Holds(connections, connection.Keys)
    requires c.port1 in port && c.port2 in port
    ensures var after := connection[next := c];
            Joined(port, after) && KeysBelow(after, next + 1) && Holds(connections + [next], after.Keys)
  {
    assert next !in connection;
    HoldsAdded(connections, connection.Keys, next);
    assert connection[next := c].Keys == connection.Keys + {next};
  }

  lemma AddHiddenLink(t: Topology, m: Mirror, c: Connection)
    requires Sound(t) && c.port1 in t.port && c.port2 in t.port
    ensures Sound(PlusConnection(t, c))
    ensures Seen(t, m) && c.hidden ==> Seen(PlusConnection(t, c), m)
  {
    hide Holds, Partition, Joined, UniqueHandles, PortIds, PortsShown, ViewClients, ViewPorts;
    ConnectionAdded(t.port, t.connection, t.connections, t.nextConnectionId, c);
    assert t.nextConnectionId !in t.connection;
    if Seen(t, m) && c.hidden {
      assert ViewLinks(t.port, t.connection[t.nextConnectionId := c]) == ViewLinks(t.port, t.connection);
    }
  }

  lemma AddShownLink(t: Topology, m: Mirror, c: Connection)
    requires Seen(t, m) && c.port1 in t.port && c.port2 in t.port && !c.hidden
    requires !t.port[c.port1].hidden && !t.port[c.port2].hidden
    ensures Sound(PlusConnection(t, c))
    ensures Tells(m, Connected(PlusConnection(t, c), t.nextConnectionId), PlusConnection(t, c))
  {
    hide Sound, Shown;
    AddHiddenLink(t, m, c.(hidden := true));
    AddHiddenLink(t, m, c);
    var t1 := PlusConnection(t, c.(hidden := true));
    ShowLink(t1, m, t.nextConnectionId, c);
    assert t1.connection[t.nextConnectionId := c] == PlusConnection(t, c).connection;
  }

  // ----- ports

  ghost function Appeared(t: Topology, p: SharedPort): Change
    requires Sound(t) && p in t.port
  {
    PortAppeared(EndOf(t, p), t.port[p].flags, t.port[p].kind)
  }

  ghost function WithPort(t: Topology, p: SharedPort, n: Port): Topology {
    t.(port := t.port[p := n])
  }

  ghost function WithoutPort(t: Topology, p: SharedPort): Topology
    requires p in t.port && t.port[p].owner in t.client
  {
    var c := t.port[p].owner;
    t.(port := t.port - {p},
       ports := Restrict(t.ports, t.port.Keys - {p}),
       client := t.client[c := Unlisted(t.client[c], p)],
       byId := t.byId - {t.port[p].id})
  }

  ghost function Unlisted(c: Client, p: SharedPort): Client {
    c.(ports := Restrict(c.ports, Elems(c.ports) - {p}))
  }

  function Listed(c: Client, p: SharedPort): Client {
    c.(ports := c.ports + [p])
  }

  ghost function PlusPort(t: Topology, p: SharedPort, n: Port): Topology
    requires n.owner in t.client
  {
    t.(port := t.port[p := n],
       ports := t.ports + [p],
       client := t.client[n.owner := Listed(t.client[n.owner], p)],
       byId := t.byId[n.id := p],
       nextPortId := n.id + 1)
  }

  ghost predicate NoLink(connection: Connections, p: SharedPort) {
    forall k <- connection :: connection[k].port1 != p && connection[k].port2 != p
  }

  ghost predicate NoShownLink(connection: Connections, p: SharedPort) {
    forall k <- connection :: !connection[k].hidden ==> connection[k].port1 != p && connection[k].port2 != p
  }

  lemma PortChange(client: Clients, port: Ports, connection: Connections, ports: seq<SharedPort>,
                   byId: map<nat, SharedPort>, next: nat, p: SharedPort, n: Port)
    requires Partition(client, port) && Joined(port, connection) && PortIds(port, byId, next) && Holds(ports, port.Keys)
    requires p in port && n.id == port[p].id && n.owner == port[p].owner
    ensures var after := port[p := n];
            Partition(client, after) && Joined(after, connection) && PortIds(after, byId, next) && Holds(ports, after.Keys)
  {
    var after := port[p := n];
    assert after.Keys == port.Keys;
    assert Partition(client, after) by { hide Joined, PortIds, Holds; }
    assert Joined(after, connection) by { hide Partition, PortIds, Holds; }
    assert PortIds(after, byId, next) by { hide Partition, Joined, Holds; }
  }

  lemma PortView(client: Clients, port: Ports, byId: map<nat, SharedPort>, next: nat, p: SharedPort, n: Port)
    requires PortIds(port, byId, next) && PortsShown(client, port)
    requires p in port && n.id == port[p].id && n.owner == port[p].owner
    requires !n.hidden ==> n.owner in client && !client[n.owner].hidden
    ensures var after := port[p := n];
            && PortsShown(client, after)
            && ViewPorts(after, byId) ==
               if n.hidden then ViewPorts(port, byId) - {n.id} else ViewPorts(port, byId)[n.id := InfoOf(n)]
  {
  }

  lemma PortLinks(port: Ports, connection: Connections, p: SharedPort, n: Port)
    requires Joined(port, connection) && LinksShown(port, connection)
    requires p in port && (NoShownLink(connection, p) || (n.id == port[p].id && !n.hidden))
    ensures var after := port[p := n];
            LinksShown(after, connection) && ViewLinks(after, connection) == ViewLinks(port, connection)
  {
  }

  /** With none of its connections visible, no visible link names the port. */
  lemma PortFree(port: Ports, connection: Connections, byId: map<nat, SharedPort>, next: nat, p: SharedPort)
    requires Joined(port, connection) && PortIds(port, byId, next) && p in port && NoShownLink(connection, p)
    ensures forall k <- ViewLinks(port, connection) ::
              var l := ViewLinks(port, connection)[k]; l.port1 != port[p].id && l.port2 != port[p].id
  {
  }

  lemma SetPort(t: Topology, m: Mirror, p: SharedPort, n: Port)
    requires Seen(t, m) && p in t.port && n.id == t.port[p].id && n.owner == t.port[p].owner
    requires !n.hidden ==> !t.client[n.owner].hidden
    requires n.hidden ==> NoShownLink(t.connection, p)
    ensures Sound(WithPort(t, p, n))
    ensures Seen(WithPort(t, p, n), m.(ports := if n.hidden then m.ports - {n.id} else m.ports[n.id := InfoOf(n)]))
  {
    PortChange(t.client, t.port, t.connection, t.ports, t.byId, t.nextPortId, p, n);
    hide Holds, Partition, Joined, UniqueHandles, KeysBelow, PortIds, PortsShown, LinksShown, ViewClients, ViewPorts, ViewLinks, NoShownLink;
    PortView(t.client, t.port, t.byId, t.nextPortId, p, n);
    PortLinks(t.port, t.connection, p, n);
  }

  lemma HidePort(t: Topology, m: Mirror, p: SharedPort)
    requires Seen(t, m) && p in t.port && !t.port[p].hidden && NoShownLink(t.connection, p)
    ensures Tells(m, PortDisappeared(EndOf(t, p)), WithPort(t, p, t.port[p].(hidden := true)))
  {
    hide Holds, Partition, Joined, UniqueHandles, KeysBelow, PortIds, PortsShown, LinksShown, ViewClients, ViewPorts, ViewLinks, NoShownLink;
    OwnerListed(t, p);
    EndKnown(t, m, p);
    PortFree(t.port, t.connection, t.byId, t.nextPortId, p);
    SetPort(t, m, p, t.port[p].(hidden := true));
  }

  lemma ShowPort(t: Topology, m: Mirror, p: SharedPort)
    requires Seen(t, m) && p in t.port && t.port[p].hidden
    requires t.port[p].owner in t.client && !t.client[t.port[p].owner].hidden
    ensures Tells(m, Appeared(t, p), WithPort(t, p, t.port[p].(hidden := false)))
  {
    hide Holds, Partition, Joined, UniqueHandles, KeysBelow, PortIds, PortsShown, LinksShown, ViewClients, ViewPorts, ViewLinks, NoShownLink;
    HiddenPortUnknown(t.port, t.byId, t.nextPortId, p);
    ShownClientKnown(t.client, t.port[p].owner);
    SetPort(t, m, p, t.port[p].(hidden := false));
  }

  lemma OwnerListed(t: Topology, p: SharedPort)
    requires Sound(t) && p in t.port
    ensures t.port[p].owner in t.client && p in t.client[t.port[p].owner].ports
  {
    hide Joined, UniqueHandles, KeysBelow, PortIds;
  }

  lemma HiddenPortUnknown(port: Ports, byId: map<nat, SharedPort>, next: nat, p: SharedPort)
    requires PortIds(port, byId, next) && p in port && port[p].hidden
    ensures port[p].id !in ViewPorts(port, byId)
  {
  }

  lemma ShownClientKnown(client: Clients, c: nat)
    requires c in client && !client[c].hidden
    ensures c in ViewClients(client) && ViewClients(client)[c] == client[c].name
  {
  }

  lemma RenamePort(t: Topology, m: Mirror, p: SharedPort, name: string)
    requires Seen(t, m) && p in t.port && !t.port[p].hidden
    ensures Tells(m, PortRenamed(t.port[p].owner, EndOf(t, p).clientName, t.port[p].id, t.port[p].name, name), WithPort(t, p, t.port[p].(name := name)))
  {
    hide Holds, Partition, Joined, UniqueHandles, KeysBelow, PortIds, PortsShown, LinksShown, ViewClients, ViewPorts, ViewLinks, NoShownLink;
    OwnerListed(t, p);
    OwnerShown(t.client, t.port, p);
    EndKnown(t, m, p);
    PortSeen(t.port, t.byId, t.nextPortId, p);
    SetPort(t, m, p, t.port[p].(name := name));
  }

  lemma OwnerShown(client: Clients, port: Ports, p: SharedPort)
    requires PortsShown(client, port) && p in port && !port[p].hidden
    ensures port[p].owner in client && !client[port[p].owner].hidden
  {
  }

  lemma PortSeen(port: Ports, byId: map<nat, SharedPort>, next: nat, p: SharedPort)
    requires PortIds(port, byId, next) && p in port && !port[p].hidden
    ensures port[p].id in ViewPorts(port, byId) && ViewPorts(port, byId)[port[p].id] == InfoOf(port[p])
  {
  }

  /** A port that stays hidden may change in any way but its id and owner. */
  lemma TouchHiddenPort(t: Topology, m: Mirror, p: SharedPort, n: Port)
    requires Seen(t, m) && p in t.port && t.port[p].hidden && n.hidden && n.id == t.port[p].id && n.owner == t.port[p].owner
    ensures Seen(WithPort(t, p, n), m)
  {
    hide Holds, Partition, Joined, UniqueHandles, KeysBelow, PortIds, PortsShown, ViewClients, ViewPorts, ViewLinks;
    HiddenPortUnknown(t.port, t.byId, t.nextPortId, p);
    SetPort(t, m, p, n);
    assert m.(ports := m.ports - {n.id}) == m by { assert m.ports - {n.id} == m.ports; }
  }

  // Moving, adding and removing hidden ports

  lemma PartitionAdded(client: Clients, port: Ports, p: SharedPort, n: Port)
    requires Partition(client, port) && p !in port && n.owner in client
    ensures Partition(client[n.owner := Listed(client[n.owner], p)], port[p := n])
  {
    var client' := client[n.owner := Listed(client[n.owner], p)];
    assert forall q <- client'[n.owner].ports :: q in client[n.owner].ports || q == p;
    assert client'[n.owner].ports[|client[n.owner].ports|] == p;
    assert forall q <- client[n.owner].ports :: q in client'[n.owner].ports;
  }

  lemma PartitionDropped(client: Clients, port: Ports, p: SharedPort)
    requires Partition(client, port) && p in port
    ensures port[p].owner in client
    ensures var c := port[p].owner; Partition(client[c := Unlisted(client[c], p)], port - {p})
  {
    var c := port[p].owner;
    RestrictMembers(client[c].ports, Elems(client[c].ports) - {p});
  }

  lemma PortIdsAdded(port: Ports, byId: map<nat, SharedPort>, next: nat, p: SharedPort, n: Port)
    requires PortIds(port, byId, next) && p !in port && n.id == next
    ensures PortIds(port[p := n], byId[next := p], next + 1)
  {
    assert next !in byId;
  }

  lemma PortIdsDropped(port: Ports, byId: map<nat, SharedPort>, next: nat, p: SharedPort)
    requires PortIds(port, byId, next) && p in port
    ensures PortIds(port - {p}, byId - {port[p].id}, next)
  {
  }

  /** Nothing but the port lists of clients changes. */
  ghost predicate SameButLists(before: Clients, after: Clients) {
    && before.Keys == after.Keys
    && forall c <- before :: after[c] == before[c].(ports := after[c].ports)
  }

  lemma ListsChanged(before: Clients, after: Clients, clients: seq<nat>, next: nat, port: Ports)
    requires SameButLists(before, after) && UniqueHandles(before) && KeysBelow(before, next)
    ensures UniqueHandles(after) && KeysBelow(after, next)
    ensures ViewClients(after) == ViewClients(before)
    ensures PortsShown(before, port) ==> PortsShown(after, port)
  {
  }

  lemma AddHiddenPort(t: Topology, m: Mirror, p: SharedPort, n: Port)
    requires Sound(t) && p !in t.port && n.owner in t.client && n.id == t.nextPortId && n.hidden
    ensures Sound(PlusPort(t, p, n))
    ensures Seen(t, m) ==> Seen(PlusPort(t, p, n), m)
  {
    hide Holds, Partition, UniqueHandles, KeysBelow, PortIds, PortsShown, LinksShown, ViewClients, ViewPorts, ViewLinks;
    var t' := PlusPort(t, p, n);
    PartitionAdded(t.client, t.port, p, n);
    PortIdsAdded(t.port, t.byId, t.nextPortId, p, n);
    HoldsAdded(t.ports, t.port.Keys, p);
    assert t'.port.Keys == t.port.Keys + {p};
    assert t'.client.Keys == t.client.Keys;
    ListsChanged(t.client, t'.client, t.clients, t.nextClientId, t.port);
    if Seen(t, m) {
      PortAddedView(t'.client, t.port, t.byId, t.nextPortId, p, n);
      PortAddedLinks(t.port, t.connection, p, n);
    }
  }

  lemma PortAddedView(client: Clients, port: Ports, byId: map<nat, SharedPort>, next: nat, p: SharedPort, n: Port)
    requires PortsShown(client, port) && PortIds(port, byId, next)
    requires p !in port && n.id == next && n.hidden
    ensures PortsShown(client, port[p := n])
    ensures ViewPorts(port[p := n], byId[next := p]) == ViewPorts(port, byId)
  {
  }

  lemma PortAddedLinks(port: Ports, connection: Connections, p: SharedPort, n: Port)
    requires Joined(port, connection) && LinksShown(port, connection) && p !in port
    ensures LinksShown(port[p := n], connection)
    ensures ViewLinks(port[p := n], connection) == ViewLinks(port, connection)
  {
  }

  lemma DropHiddenPort(t: Topology, m: Mirror, p: SharedPort)
    requires Sound(t) && p in t.port
    requires NoLink(t.connection, p)
    ensures t.port[p].owner in t.client && Sound(WithoutPort(t, p))
    ensures Seen(t, m) && t.port[p].hidden ==> Seen(WithoutPort(t, p), m)
  {
    hide Holds, Partition, UniqueHandles, KeysBelow, PortIds, PortsShown, LinksShown, ViewClients, ViewPorts, ViewLinks;
    PartitionDropped(t.client, t.port, p);
    var t' := WithoutPort(t, p);
    PortIdsDropped(t.port, t.byId, t.nextPortId, p);
    HoldsDropped(t.ports, t.port.Keys, p);
    assert t'.port.Keys == t.port.Keys - {p};
    assert t'.client.Keys == t.client.Keys;
    ListsChanged(t.client, t'.client, t.clients, t.nextClientId, t.port);
    if Seen(t, m) && t.port[p].hidden {
      PortDroppedView(t'.client, t.port, t.byId, t.nextPortId, p);
      PortDroppedLinks(t.port, t.connection, p);
    }
  }

  lemma PortDroppedView(client: Clients, port: Ports, byId: map<nat, SharedPort>, next: nat, p: SharedPort)
    requires PortsShown(client, port) && PortIds(port, byId, next) && p in port && port[p].hidden
    ensures PortsShown(client, port - {p})
    ensures ViewPorts(port - {p}, byId - {port[p].id}) == ViewPorts(port, byId)
  {
  }

  lemma PortDroppedLinks(port: Ports, connection: Connections, p: SharedPort)
    requires LinksShown(port, connection) && NoLink(connection, p)
    ensures LinksShown(port - {p}, connection)
    ensures ViewLinks(port - {p}, connection) == ViewLinks(port, connection)
  {
    var after := port - {p};
    assert forall q <- port :: q != p ==> q in after && after[q] == port[q];
    assert LinksShown(after, connection);
    var a, b := ViewLinks(after, connection), ViewLinks(port, connection);
    assert a.Keys == b.Keys;
    assert forall k <- a :: a[k] == b[k];
  }

  /** The port leaves both lists and joins the end of both, under its new owner and a new id. */
  ghost function Moved(t: Topology, p: SharedPort, c: nat): Topology
    requires p in t.port && t.port[p].owner in t.client && c in t.client
  {
    var o := t.port[p].owner;
    var client1 := t.client[o := Unlisted(t.client[o], p)];
    t.(port := t.port[p := t.port[p].(owner := c, id := t.nextPortId)],
       ports := Restrict(t.ports, t.port.Keys - {p}) + [p],
       client := client1[c := Listed(client1[c], p)],
       byId := (t.byId - {t.port[p].id})[t.nextPortId := p],
       nextPortId := t.nextPortId + 1)
  }

  lemma MovedIsSound(t: Topology, p: SharedPort, c: nat)
    requires Sound(t) && p in t.port && c in t.client
    ensures t.port[p].owner in t.client && Sound(Moved(t, p, c))
  {
    hide Holds, Partition, UniqueHandles, KeysBelow, PortIds;
    PartitionDropped(t.client, t.port, p);
    var t' := Moved(t, p, c);
    var o := t.port[p].owner;
    var n := t'.port[p];
    var rest := t.port - {p};
    assert rest[p := n] == t'.port;
    PartitionAdded(t.client[o := Unlisted(t.client[o], p)], rest, p, n);
    PortIdsDropped(t.port, t.byId, t.nextPortId, p);
    PortIdsAdded(rest, t.byId - {t.port[p].id}, t.nextPortId, p, n);
    HoldsDropped(t.ports, t.port.Keys, p);
    HoldsAdded(Restrict(t.ports, t.port.Keys - {p}), t.port.Keys - {p}, p);
    assert t'.port.Keys == t.port.Keys == t.port.Keys - {p} + {p};
    assert t'.client.Keys == t.client.Keys;
    ListsChanged(t.client, t'.client, t.clients, t.nextClientId, t.port);
  }

  lemma ListedOnce(t: Topology, p: SharedPort)
    requires Sound(t) && p in t.port
    ensures forall d <- t.client :: p in t.client[d].ports <==> d == t.port[p].owner
  {
    hide Holds, Joined, UniqueHandles, KeysBelow, PortIds;
  }

  lemma HiddenPortMoved(t: Topology, m: Mirror, p: SharedPort, c: nat)
    requires Sound(t) && p in t.port && c in t.client
    ensures t.port[p].owner in t.client && Sound(Moved(t, p, c))
    ensures Seen(t, m) && t.port[p].hidden && NoShownLink(t.connection, p) ==> Seen(Moved(t, p, c), m)
  {
    hide Holds, Partition, UniqueHandles, KeysBelow, PortIds, PortsShown, LinksShown, ViewClients, ViewPorts, ViewLinks, NoShownLink, Restrict;
    MovedIsSound(t, p, c);
    var t' := Moved(t, p, c);
    if Seen(t, m) && t.port[p].hidden && NoShownLink(t.connection, p) {
      ListsChanged(t.client, t'.client, t.clients, t.nextClientId, t.port);
      HiddenPortMovedView(t'.client, t.port, t.byId, t.nextPortId, p, t'.port[p]);
      PortLinks(t.port, t.connection, p, t'.port[p]);
    }
  }

  lemma MoveHiddenPort(t: Topology, m: Mirror, p: SharedPort, c: nat)
    requires Sound(t) && p in t.port && c in t.client
    ensures t.port[p].owner in t.client && Sound(Moved(t, p, c))
    ensures var t' := Moved(t, p, c);
            && t'.port == t.port[p := t.port[p].(owner := c, id := t.nextPortId)] && t'.client.Keys == t.client.Keys
            && (forall d <- t'.client :: p in t'.client[d].ports <==> d == c)
            && t'.ports != [] && t'.ports[|t'.ports| - 1] == p
    ensures Seen(t, m) && t.port[p].hidden && NoShownLink(t.connection, p) ==> Seen(Moved(t, p, c), m)
  {
    hide Sound, Seen, Restrict;
    HiddenPortMoved(t, m, p, c);
    OwnerListed(t, p);
    ListedOnce(Moved(t, p, c), p);
  }

  lemma HiddenPortMovedView(client: Clients, port: Ports, byId: map<nat, SharedPort>, next: nat, p: SharedPort, n: Port)
    requires PortsShown(client, port) && PortIds(port, byId, next)
    requires p in port && port[p].hidden && n.id == next && n.hidden
    ensures PortsShown(client, port[p := n])
    ensures ViewPorts(port[p := n], (byId - {port[p].id})[next := p]) == ViewPorts(port, byId)
  {
  }

  /** Field by field: the port was at `i` in the list of ports and at `j` in the list of its owner. */
  lemma MovedFields(t: Topology, p: SharedPort, c: nat) returns (i: nat, j: nat)
    requires Sound(t) && p in t.port && c in t.client
    ensures t.port[p].owner in t.client
    ensures i < |t.ports| && t.ports[i] == p && Moved(t, p, c).ports == t.ports[..i] + t.ports[i + 1..] + [p]
    ensures var o := t.port[p].owner; var list := t.client[o].ports;
            && j < |list| && list[j] == p
            && Moved(t, p, c).client ==
               if c == o then t.client[o := t.client[o].(ports := list[..j] + list[j + 1..] + [p])]
               else t.client[o := t.client[o].(ports := list[..j] + list[j + 1..])][c := t.client[c].(ports := t.client[c].ports + [p])]
  {
    hide Sound, Erase, Restrict, PruneIds;
    PortErased(t, p);
    OwnerListed(t, p);
    j := EraseCuts(t.client[t.port[p].owner].ports, p);
    EveryPortListed(t);
    i := EraseCuts(t.ports, p);
  }

  // ----- clients

  ghost function WithClient(t: Topology, c: nat, n: Client): Topology {
    t.(client := t.client[c := n])
  }

  ghost function WithoutClient(t: Topology, c: nat): Topology {
    t.(client := t.client - {c}, clients := Restrict(t.clients, t.client.Keys - {c}))
  }

  ghost function PlusClient(t: Topology, n: Client): Topology {
    var c := t.nextClientId;
    t.(client := t.client[c := n], clients := t.clients + [c], nextClientId := c + 1)
  }

  ghost predicate NoShownPort(port: Ports, c: nat) {
    forall p <- port :: !port[p].hidden ==> port[p].owner != c
  }

  lemma ClientChange(client: Clients, port: Ports, clients: seq<nat>, next: nat, c: nat, n: Client)
    requires Partition(client, port) && UniqueHandles(client) && KeysBelow(client, next) && Holds(clients, client.Keys)
    requires c in client && n.handle == client[c].handle && n.ports == client[c].ports
    ensures var after := client[c := n];
            Partition(after, port) && UniqueHandles(after) && KeysBelow(after, next) && Holds(clients, after.Keys)
  {
    assert client[c := n].Keys == client.Keys;
    assert Partition(client[c := n], port) by { hide UniqueHandles, KeysBelow, Holds; }
  }

  lemma SetClient(t: Topology, m: Mirror, c: nat, n: Client)
    requires Seen(t, m) && c in t.client && n.handle == t.client[c].handle && n.ports == t.client[c].ports
    requires n.hidden ==> NoShownPort(t.port, c)
    ensures Seen(WithClient(t, c, n), m.(clients := if n.hidden then m.clients - {c} else m.clients[c := n.name]))
  {
    hide Holds, Partition, Joined, UniqueHandles, KeysBelow, PortIds, LinksShown, ViewPorts, ViewLinks;
    ClientChange(t.client, t.port, t.clients, t.nextClientId, c, n);
  }

  lemma HideClient(t: Topology, m: Mirror, c: nat)
    requires Seen(t, m) && c in t.client && !t.client[c].hidden && NoShownPort(t.port, c)
    ensures Tells(m, ClientDisappeared(c, t.client[c].name), WithClient(t, c, t.client[c].(hidden := true)))
  {
    hide Holds, Partition, Joined, UniqueHandles, KeysBelow, PortIds, PortsShown, LinksShown, ViewLinks;
    SetClient(t, m, c, t.client[c].(hidden := true));
  }

  lemma ShowClient(t: Topology, m: Mirror, c: nat)
    requires Seen(t, m) && c in t.client && t.client[c].hidden
    ensures Tells(m, ClientAppeared(c, t.client[c].name), WithClient(t, c, t.client[c].(hidden := false)))
  {
    hide Holds, Partition, Joined, UniqueHandles, KeysBelow, PortIds, PortsShown, LinksShown, ViewLinks;
    SetClient(t, m, c, t.client[c].(hidden := false));
  }

  lemma RenameClient(t: Topology, m: Mirror, c: nat, name: string)
    requires Seen(t, m) && c in t.client
    ensures t.client[c].hidden ==> Seen(WithClient(t, c, t.client[c].(name := name)), m)
    ensures !t.client[c].hidden ==>
              Tells(m, ClientRenamed(c, t.client[c].name, name), WithClient(t, c, t.client[c].(name := name)))
  {
    hide Holds, Partition, Joined, UniqueHandles, KeysBelow, PortIds, LinksShown, ViewPorts, ViewLinks;
    SetClient(t, m, c, t.client[c].(name := name));
    if t.client[c].hidden {
      assert m.clients - {c} == m.clients;
    }
  }

  lemma ClientAdded(client: Clients, port: Ports, next: nat, n: Client)
    requires KeysBelow(client, next) && UniqueHandles(client) && Partition(client, port)
    requires n.ports == [] && forall c <- client :: client[c].handle != n.handle
    ensures var after := client[next := n];
            && next !in client && KeysBelow(after, next + 1) && UniqueHandles(after) && Partition(after, port)
            && (PortsShown(client, port) ==> PortsShown(after, port))
            && (n.hidden ==> ViewClients(after) == ViewClients(client))
  {
  }

  lemma AddHiddenClient(t: Topology, m: Mirror, n: Client)
    requires Sound(t) && n.ports == [] && forall c <- t.client :: t.client[c].handle != n.handle
    ensures Sound(PlusClient(t, n))
    ensures Seen(t, m) && n.hidden ==> Seen(PlusClient(t, n), m)
  {
    hide Holds, Joined, PortIds, LinksShown, ViewPorts, ViewLinks, KeysBelow, UniqueHandles, Partition, PortsShown, ViewClients;
    ClientAdded(t.client, t.port, t.nextClientId, n);
    HoldsAdded(t.clients, t.client.Keys, t.nextClientId);
    assert PlusClient(t, n).client.Keys == t.client.Keys + {t.nextClientId};
  }

  lemma AddShownClient(t: Topology, m: Mirror, n: Client)
    requires Seen(t, m) && n.ports == [] && !n.hidden && forall c <- t.client :: t.client[c].handle != n.handle
    ensures Tells(m, ClientAppeared(t.nextClientId, n.name), PlusClient(t, n))
  {
    hide Sound, Shown, ViewClients, ViewPorts, ViewLinks;
    SeenSound(t, m);
    AddHiddenClient(t, m, n.(hidden := true));
    var t1 := PlusClient(t, n.(hidden := true));
    ShowClient(t1, m, t.nextClientId);
    assert t1.client[t.nextClientId := n] == PlusClient(t, n).client;
  }

  lemma DropHiddenClient(t: Topology, m: Mirror, c: nat)
    requires Sound(t) && c in t.client && t.client[c].ports == []
    ensures Sound(WithoutClient(t, c))
    ensures Seen(t, m) && t.client[c].hidden ==> Seen(WithoutClient(t, c), m)
  {
    hide Holds, Joined, PortIds, LinksShown, ViewPorts, ViewLinks;
    HoldsDropped(t.clients, t.client.Keys, c);
    assert WithoutClient(t, c).client.Keys == t.client.Keys - {c};
  }

  // ----- several connections at once

  ghost function HideLinks(connection: Connections, ks: set<nat>): Connections {
    map k | k in connection :: if k in ks then connection[k].(hidden := true) else connection[k]
  }

  ghost function LinksOf(connection: Connections, p: SharedPort): set<nat> {
    set k | k in connection && connection[k].Touches(p)
  }

  lemma NotLinked(connection: Connections, p: SharedPort, k: nat)
    requires k in connection && !connection[k].Touches(p)
    ensures k !in LinksOf(connection, p)
  {
  }

  lemma LinksExist(connection: Connections, p: SharedPort)
    ensures LinksOf(connection, p) <= connection.Keys
  {
  }

  ghost function ShownLinks(connection: Connections): set<nat> {
    set k | k in connection && !connection[k].hidden
  }

  lemma HideOne(connection: Connections, k: nat)
    requires k in connection
    ensures HideLinks(connection, {k}) == connection[k := connection[k].(hidden := true)]
  {
  }

  /** One more list position swept. */
  lemma HideNext(connection: Connections, ks: set<nat>, list: seq<nat>, i: nat)
    requires i < |list| && list[i] in connection
    ensures var before := HideLinks(connection, ks * Elems(list[..i]));
            && list[i] in before
            && before[list[i]] == connection[list[i]].(hidden := before[list[i]].hidden)
            && HideLinks(connection, ks * Elems(list[..i + 1])) ==
               if list[i] in ks && !before[list[i]].hidden then HideLinks(before, {list[i]}) else before
  {
    ElemsNext(list, i);
  }

  lemma HideDone(connection: Connections, ks: set<nat>, list: seq<nat>)
    requires Holds(list, connection.Keys)
    ensures HideLinks(connection, ks * Elems(list[..|list|])) == HideLinks(connection, ks)
    ensures HideLinks(connection, ks * Elems(list[..0])) == connection
  {
    assert list[..|list|] == list;
  }

  lemma ListsHold(t: Topology)
    requires Sound(t)
    ensures Holds(t.clients, t.client.Keys) && Holds(t.ports, t.port.Keys) && Holds(t.connections, t.connection.Keys)
  {
    hide Partition, Joined, UniqueHandles, KeysBelow, PortIds, Holds;
  }

  /** The lists name nodes that exist. */
  lemma Listings(t: Topology)
    requires Sound(t)
    ensures forall i :: 0 <= i < |t.connections| ==> t.connections[i] in t.connection
    ensures forall i :: 0 <= i < |t.ports| ==> t.ports[i] in t.port
    ensures forall i :: 0 <= i < |t.clients| ==> t.clients[i] in t.client
  {
    hide Partition, Joined, UniqueHandles, KeysBelow, PortIds;
  }

  lemma ConnectionEnds(t: Topology, k: nat)
    requires Sound(t) && k in t.connection
    ensures t.connection[k].port1 in t.port && t.connection[k].port2 in t.port
    ensures 0 < k < t.nextConnectionId
  {
    hide Partition, Holds, UniqueHandles, PortIds;
  }

  // ----- removing several nodes

  ghost function PruneClients(client: Clients, ps: set<SharedPort>, cs: set<nat>): Clients {
    map c | c in client && c !in cs :: client[c].(ports := Restrict(client[c].ports, Elems(client[c].ports) - ps))
  }

  ghost function PruneIds(byId: map<nat, SharedPort>, ps: set<SharedPort>): map<nat, SharedPort> {
    map i | i in byId && byId[i] !in ps :: byId[i]
  }

  /** Without the connections `ks`, the ports `ps` and the clients `cs`; every list keeps its order. */
  ghost function Prune(t: Topology, ks: set<nat>, ps: set<SharedPort>, cs: set<nat>): Topology {
    t.(connection := t.connection - ks,
       connections := Restrict(t.connections, t.connection.Keys - ks),
       port := t.port - ps,
       ports := Restrict(t.ports, t.port.Keys - ps),
       client := PruneClients(t.client, ps, cs),
       clients := Restrict(t.clients, t.client.Keys - cs),
       byId := PruneIds(t.byId, ps))
  }

  lemma AllKept<K>(list: seq<K>, keys: set<K>)
    requires Holds(list, keys)
    ensures Restrict(list, keys - {}) == list
  {
    RestrictAll(list, keys - {});
  }

  lemma NoPortPruned(client: Clients, cs: set<nat>)
    ensures PruneClients(client, {}, cs) == client - cs
  {
    forall c <- client | c !in cs ensures PruneClients(client, {}, cs)[c] == client[c] {
      RestrictAll(client[c].ports, Elems(client[c].ports) - {});
    }
  }

  /** Nothing but connections and clients goes. */
  lemma PruneNoPort(t: Topology, ks: set<nat>, cs: set<nat>)
    requires Sound(t)
    ensures Prune(t, ks, {}, cs) == t.(
              connection := t.connection - ks, connections := Restrict(t.connections, t.connection.Keys - ks),
              client := t.client - cs, clients := Restrict(t.clients, t.client.Keys - cs))
  {
    hide Holds, Partition, Joined, UniqueHandles, KeysBelow, PortIds, Restrict, PruneClients;
    AllKept(t.ports, t.port.Keys);
    NoPortPruned(t.client, cs);
    assert t.port - {} == t.port;
    assert PruneIds(t.byId, {}) == t.byId;
  }

  lemma PruneNothing(t: Topology)
    requires Sound(t)
    ensures Prune(t, {}, {}, {}) == t
  {
    hide Holds, Partition, Joined, UniqueHandles, KeysBelow, PortIds, Restrict, Prune;
    PruneNoPort(t, {}, {});
    AllKept(t.connections, t.connection.Keys);
    AllKept(t.clients, t.client.Keys);
    assert t.connection - {} == t.connection && t.client - {} == t.client;
  }

  lemma PruneConnection(t: Topology, k: nat)
    requires Sound(t)
    ensures Prune(t, {k}, {}, {}) == WithoutConnection(t, k)
  {
    hide Holds, Partition, Joined, UniqueHandles, KeysBelow, PortIds, Restrict, Prune;
    PruneNoPort(t, {k}, {});
    AllKept(t.clients, t.client.Keys);
    assert t.client - {} == t.client;
  }

  lemma PruneClient(t: Topology, c: nat)
    requires Sound(t)
    ensures Prune(t, {}, {}, {c}) == WithoutClient(t, c)
  {
    hide Holds, Partition, Joined, UniqueHandles, KeysBelow, PortIds, Restrict, Prune;
    PruneNoPort(t, {}, {c});
    AllKept(t.connections, t.connection.Keys);
    assert t.connection - {} == t.connection;
  }

  lemma RestrictOrder<K>(list: seq<K>, keys: set<K>, a: set<K>, b: set<K>)
    ensures Restrict(Restrict(list, keys - a), keys - a - b) == Restrict(list, keys - (a + b))
  {
    RestrictTwice(list, keys - a, keys - a - b);
    assert (keys - a) * (keys - a - b) == keys - (a + b);
  }

  lemma PruneClientsMore(client: Clients, ps: set<SharedPort>, cs: set<nat>, ps': set<SharedPort>, cs': set<nat>)
    ensures PruneClients(PruneClients(client, ps, cs), ps', cs') == PruneClients(client, ps + ps', cs + cs')
  {
    var a := PruneClients(PruneClients(client, ps, cs), ps', cs');
    var b := PruneClients(client, ps + ps', cs + cs');
    forall c <- client | c !in cs + cs' ensures a[c] == b[c] {
      PrunedList(client[c].ports, ps, ps');
    }
  }

  lemma PrunedList<K>(list: seq<K>, a: set<K>, b: set<K>)
    ensures var list' := Restrict(list, Elems(list) - a);
            Restrict(list', Elems(list') - b) == Restrict(list, Elems(list) - (a + b))
  {
    var list' := Restrict(list, Elems(list) - a);
    RestrictMembers(list, Elems(list) - a);
    assert Elems(list') == Elems(list) - a;
    RestrictOrder(list, Elems(list), a, b);
  }

  lemma PruneMore(t: Topology, ks: set<nat>, ps: set<SharedPort>, cs: set<nat>, ks': set<nat>, ps': set<SharedPort>, cs': set<nat>)
    ensures Prune(Prune(t, ks, ps, cs), ks', ps', cs') == Prune(t, ks + ks', ps + ps', cs + cs')
  {
    var t1 := Prune(t, ks, ps, cs);
    assert t1.connection.Keys == t.connection.Keys - ks;
    assert t1.port.Keys == t.port.Keys - ps;
    assert t1.client.Keys == t.client.Keys - cs;
    hide Restrict, PruneClients;
    RestrictOrder(t.connections, t.connection.Keys, ks, ks');
    RestrictOrder(t.ports, t.port.Keys, ps, ps');
    RestrictOrder(t.clients, t.client.Keys, cs, cs');
    PruneClientsMore(t.client, ps, cs, ps', cs');
    assert t.connection - ks - ks' == t.connection - (ks + ks');
    assert t.port - ps - ps' == t.port - (ps + ps');
    assert PruneIds(PruneIds(t.byId, ps), ps') == PruneIds(t.byId, ps + ps');
  }

  lemma PrunePort(t: Topology, p: SharedPort)
    requires Sound(t) && p in t.port
    ensures t.port[p].owner in t.client && Prune(t, {}, {p}, {}) == WithoutPort(t, p)
  {
    hide Holds, Partition, Joined, UniqueHandles, KeysBelow, PortIds, Restrict, PruneClients, PruneIds;
    OwnerListed(t, p);
    AllKept(t.connections, t.connection.Keys);
    AllKept(t.clients, t.client.Keys);
    UnlistedEverywhere(t.client, t.port, p);
    OneIdPruned(t.port, t.byId, t.nextPortId, p);
    assert t.connection - {} == t.connection;
  }

  lemma OneIdPruned(port: Ports, byId: map<nat, SharedPort>, next: nat, p: SharedPort)
    requires PortIds(port, byId, next) && p in port
    ensures PruneIds(byId, {p}) == byId - {port[p].id}
  {
  }

  lemma UnlistedEverywhere(client: Clients, port: Ports, p: SharedPort)
    requires Partition(client, port) && p in port
    ensures port[p].owner in client
    ensures PruneClients(client, {p}, {}) == client[port[p].owner := Unlisted(client[port[p].owner], p)]
  {
    forall c <- client | c != port[p].owner ensures PruneClients(client, {p}, {})[c] == client[c] {
      RestrictAll(client[c].ports, Elems(client[c].ports) - {p});
    }
  }

  // ----- connections whose two ports are visible while they are hidden themselves

  ghost function Eligible(port: Ports, connection: Connections): set<nat> {
    set k | k in connection && connection[k].hidden && !connection[k].changing
            && connection[k].port1 in port && !port[connection[k].port1].hidden
            && connection[k].port2 in port && !port[connection[k].port2].hidden
  }

  ghost function MarkChanging(connection: Connections, ks: set<nat>): Connections {
    map k | k in connection :: if k in ks then connection[k].(changing := true) else connection[k]
  }

  /** One more list position swept, the connect handler having accepted exactly `accepted`. */
  lemma MarkNext(port: Ports, connection: Connections, accepted: set<nat>, list: seq<nat>, i: nat)
    requires Distinct(list) && i < |list| && list[i] in connection
    ensures var ks := Eligible(port, connection);
            var before := MarkChanging(connection, ks * accepted * Elems(list[..i]));
            var k := list[i];
            && k in before && before[k] == connection[k]
            && (k in ks ==> MarkChanging(connection, ks * accepted * Elems(list[..i + 1])) ==
                            before[k := before[k].(changing := k in accepted)])
            && (k !in ks ==> MarkChanging(connection, ks * accepted * Elems(list[..i + 1])) == before)
            && Restrict(list[..i + 1], ks) == Restrict(list[..i], ks) + (if k in ks then [k] else [])
  {
    ElemsNext(list, i);
    assert list[i] !in list[..i];
    assert list[..i + 1] == list[..i] + [list[i]];
    RestrictAppend(list[..i], [list[i]], Eligible(port, connection));
  }

  lemma MarkDone(connection: Connections, ks: set<nat>, list: seq<nat>)
    requires Holds(list, connection.Keys)
    ensures MarkChanging(connection, ks * Elems(list[..|list|])) == MarkChanging(connection, ks)
    ensures MarkChanging(connection, ks * Elems(list[..0])) == connection
    ensures list[..|list|] == list
  {
    assert list[..|list|] == list;
  }

  lemma EligibleWhen(port: Ports, connection: Connections, k: nat)
    requires k in connection && connection[k].port1 in port && connection[k].port2 in port
    ensures k in Eligible(port, connection) <==>
            connection[k].hidden && !connection[k].changing && !port[connection[k].port1].hidden && !port[connection[k].port2].hidden
  {
  }

  lemma ListDistinct<K>(list: seq<K>, keys: set<K>)
    requires Holds(list, keys)
    ensures Distinct(list)
  {
  }

  lemma TouchPort(t: Topology, p: SharedPort, n: Port)
    requires Sound(t) && p in t.port && n.id == t.port[p].id && n.owner == t.port[p].owner
    ensures Sound(WithPort(t, p, n))
  {
    hide Holds, Partition, Joined, UniqueHandles, KeysBelow, PortIds;
    PortChange(t.client, t.port, t.connection, t.ports, t.byId, t.nextPortId, p, n);
  }

  lemma TouchClient(t: Topology, c: nat, n: Client)
    requires Sound(t) && c in t.client && n.handle == t.client[c].handle && n.ports == t.client[c].ports
    ensures Sound(WithClient(t, c, n))
  {
    hide Holds, Partition, Joined, UniqueHandles, KeysBelow, PortIds;
    ClientChange(t.client, t.port, t.clients, t.nextClientId, c, n);
  }

  lemma HiddenLinksOf(connection: Connections, p: SharedPort)
    ensures NoShownLink(HideLinks(connection, LinksOf(connection, p)), p)
  {
  }

  /** Hiding a visible port keeps the visibility rule exactly when no visible connection has it. */
  lemma PortHiddenRule(t: Topology, p: SharedPort)
    requires p in t.port && Shown(t)
    ensures Shown(WithPort(t, p, t.port[p].(hidden := true))) <==> NoShownLink(t.connection, p)
  {
  }

  /** Cutting a position out of the connection list takes exactly its connection away. */
  lemma CutOut(t: Topology, i: nat)
    requires Sound(t) && i < |t.connections|
    ensures t.connections[..i] + t.connections[i + 1..] == Restrict(t.connections, t.connection.Keys - {t.connections[i]})
  {
    hide Partition, Joined, UniqueHandles, KeysBelow, PortIds;
    DeleteAt(t.connections, i, t.connection.Keys - {t.connections[i]});
  }

  lemma NoMore<K>(xs: set<K>)
    ensures xs + {} == xs && {} + xs == xs
  {
  }

  lemma PrunedConnections(t: Topology, ks: set<nat>, ps: set<SharedPort>, cs: set<nat>)
    ensures Prune(t, ks, ps, cs).connection == t.connection - ks
  {
  }

  /** No position of the list is in `ks`, so no connection is. */
  lemma AllSwept(t: Topology, ks: set<nat>)
    requires Sound(t) && forall j :: 0 <= j < |t.connections| ==> t.connections[j] !in ks
    ensures forall k <- ks :: k !in t.connection
  {
    hide Partition, Joined, UniqueHandles, KeysBelow, PortIds;
  }

  lemma DropShownPort(t: Topology, m: Mirror, p: SharedPort)
    requires Seen(t, m) && p in t.port && !t.port[p].hidden && NoLink(t.connection, p)
    ensures t.port[p].owner in t.client && Tells(m, PortDisappeared(EndOf(t, p)), WithoutPort(t, p))
  {
    hide Sound, Shown, Restrict, Apply, ViewClients, ViewPorts, ViewLinks, Unlisted, NoLink, NoShownLink;
    NoLinkShown(t.connection, p);
    OwnerListed(t, p);
    HidePort(t, m, p);
    var t1 := WithPort(t, p, t.port[p].(hidden := true));
    DropHiddenPort(t1, Apply(m, PortDisappeared(EndOf(t, p))).value, p);
    assert t1.port - {p} == t.port - {p} && t1.port.Keys == t.port.Keys;
    assert WithoutPort(t1, p) == WithoutPort(t, p);
  }

  lemma NoLinkShown(connection: Connections, p: SharedPort)
    requires NoLink(connection, p)
    ensures NoShownLink(connection, p)
  {
  }

  lemma DropShownClient(t: Topology, m: Mirror, c: nat)
    requires Seen(t, m) && c in t.client && !t.client[c].hidden && t.client[c].ports == []
    ensures Tells(m, ClientDisappeared(c, t.client[c].name), WithoutClient(t, c))
  {
    hide Sound, Shown, Restrict, Apply, ViewClients, ViewPorts, ViewLinks, NoShownPort;
    NoPortShown(t, c);
    HideClient(t, m, c);
    var t1 := WithClient(t, c, t.client[c].(hidden := true));
    DropHiddenClient(t1, Apply(m, ClientDisappeared(c, t.client[c].name)).value, c);
    assert t1.client - {c} == t.client - {c} && t1.client.Keys == t.client.Keys;
    assert WithoutClient(t1, c) == WithoutClient(t, c);
  }

  lemma NoPortShown(t: Topology, c: nat)
    requires Sound(t) && c in t.client && t.client[c].ports == []
    ensures NoShownPort(t.port, c)
  {
    hide Holds, Joined, UniqueHandles, KeysBelow, PortIds;
  }

  /** What `list_del` on the port leaves of the two lists it is in. */
  lemma PortErased(t: Topology, p: SharedPort)
    requires Sound(t) && p in t.port
    ensures t.port[p].owner in t.client
    ensures Erase(t.ports, p) == Restrict(t.ports, t.port.Keys - {p})
    ensures var c := t.client[t.port[p].owner]; c.(ports := Erase(c.ports, p)) == Unlisted(c, p)
  {
    hide Joined, UniqueHandles, KeysBelow, PortIds;
    EraseOne(t.ports, p, t.port.Keys - {p});
    var list := t.client[t.port[p].owner].ports;
    EraseOne(list, p, Elems(list) - {p});
  }

  lemma ClientErased(t: Topology, c: nat)
    requires Sound(t) && c in t.client
    ensures Erase(t.clients, c) == Restrict(t.clients, t.client.Keys - {c})
  {
    hide Partition, Joined, UniqueHandles, KeysBelow, PortIds;
    EraseOne(t.clients, c, t.client.Keys - {c});
  }

  ghost function LinksOfAll(connection: Connections, ps: set<SharedPort>): set<nat> {
    set k | k in connection && (connection[k].port1 in ps || connection[k].port2 in ps)
  }

  lemma LinksOfOneMore(connection: Connections, ps: set<SharedPort>, p: SharedPort)
    ensures LinksOfAll(connection, ps + {p}) == LinksOfAll(connection, ps) + LinksOf(connection - LinksOfAll(connection, ps), p)
  {
  }

  lemma PrunedPorts(t: Topology, ks: set<nat>, ps: set<SharedPort>, cs: set<nat>)
    ensures Prune(t, ks, ps, cs).port == t.port - ps
  {
  }

  lemma PrunedClient(t: Topology, ks: set<nat>, ps: set<SharedPort>, c: nat)
    requires c in t.client
    ensures var t' := Prune(t, ks, ps, {});
            && c in t'.client && t'.client[c] == t.client[c].(ports := t'.client[c].ports)
            && (forall i :: 0 <= i < |t'.client[c].ports| ==> t'.client[c].ports[i] in t.client[c].ports && t'.client[c].ports[i] !in ps)
            && (t'.client[c].ports == [] ==> Elems(t.client[c].ports) <= ps)
  {
    RestrictMembers(t.client[c].ports, Elems(t.client[c].ports) - ps);
  }

  lemma ListedPort(t: Topology, c: nat, p: SharedPort)
    requires Sound(t) && c in t.client && p in t.client[c].ports
    ensures p in t.port && t.port[p].owner == c
  {
    hide Holds, Joined, UniqueHandles, KeysBelow, PortIds;
  }

  lemma NoLinksOfNone(connection: Connections)
    ensures LinksOfAll(connection, {}) == {}
  {
  }

  lemma ClientIds(t: Topology, c: nat)
    requires Sound(t) && c in t.client
    ensures 0 < c < t.nextClientId
  {
    hide Holds, Partition, Joined, UniqueHandles, PortIds;
  }

  /** After the ports `done` and their connections, one more port and its connections go. */
  lemma PruneOnePort(t: Topology, done: set<SharedPort>, p: SharedPort)
    ensures var s := Prune(t, LinksOfAll(t.connection, done), done, {});
            Prune(s, LinksOf(s.connection, p), {p}, {}) == Prune(t, LinksOfAll(t.connection, done + {p}), done + {p}, {})
  {
    hide Restrict, PruneClients, PruneIds;
    var gone := LinksOfAll(t.connection, done);
    PrunedConnections(t, gone, done, {});
    LinksOfOneMore(t.connection, done, p);
    NoMore<nat>({});
    PruneMore(t, gone, done, {}, LinksOf(t.connection - gone, p), {p}, {});
  }

  ghost function HiddenClients(client: Clients): set<nat> {
    set c | c in client && client[c].hidden
  }

  ghost function HiddenLinks(connection: Connections): set<nat> {
    set k | k in connection && connection[k].hidden
  }

  ghost function OwnedBy(port: Ports, cs: set<nat>): set<SharedPort> {
    set p | p in port && port[p].owner in cs
  }

  /** A hidden client's ports are hidden, so in a graph without hidden connections they have none. */
  lemma HiddenClientBare(t: Topology, c: nat)
    requires Sound(t) && Shown(t) && c in t.client && t.client[c].hidden
    requires forall k <- t.connection :: !t.connection[k].hidden
    ensures LinksOfAll(t.connection, Elems(t.client[c].ports)) == {}
  {
    hide Holds, UniqueHandles, KeysBelow, PortIds, Joined;
    forall k <- t.connection ensures t.connection[k].port1 !in t.client[c].ports && t.connection[k].port2 !in t.client[c].ports {
      assert !t.connection[k].hidden;
    }
  }

  lemma OwnPorts(t: Topology, c: nat)
    requires Sound(t) && c in t.client
    ensures Elems(t.client[c].ports) == OwnedBy(t.port, {c})
  {
    hide Holds, UniqueHandles, KeysBelow, PortIds, Joined;
  }

  lemma Present(t: Topology, k: nat)
    requires Sound(t) && k in t.connection
    ensures k in t.connections
  {
    hide Partition, Joined, UniqueHandles, KeysBelow, PortIds;
  }

  lemma NothingListed(t: Topology)
    requires Sound(t)
    ensures t.connections == [] ==> t.connection == map[]
    ensures t.clients == [] ==> t.client == map[] && t.port == map[] && t.ports == []
    ensures t.connection == map[] ==> t.connections == []
  {
    hide Joined, UniqueHandles, KeysBelow, PortIds;
    assert t.connections != [] ==> t.connections[0] in t.connections;
    assert t.ports != [] ==> t.ports[0] in t.ports;
  }

  lemma PrunedMaps(t: Topology, ks: set<nat>, ps: set<SharedPort>, cs: set<nat>)
    ensures var t' := Prune(t, ks, ps, cs);
            && t'.client.Keys == t.client.Keys - cs
            && t'.port == t.port - ps && t'.port.Keys == t.port.Keys - ps
            && t'.connection == t.connection - ks
            && t'.clients == Restrict(t.clients, t.client.Keys - cs)
            && forall c <- t'.client :: t'.client[c].hidden == t.client[c].hidden
  {
  }

  /** A hidden client has hidden ports, and they have no visible connection. */
  lemma HiddenClientQuiet(t: Topology, c: nat, p: SharedPort)
    requires Sound(t) && Shown(t) && c in t.client && t.client[c].hidden && p in t.client[c].ports
    ensures p in t.port && t.port[p].hidden && NoShownLink(t.connection, p)
  {
    hide Holds, UniqueHandles, KeysBelow, PortIds, Joined;
  }

  lemma ClientCutOut(t: Topology, i: nat)
    requires Sound(t) && i < |t.clients|
    ensures Restrict(t.clients, t.client.Keys - {t.clients[i]}) == t.clients[..i] + t.clients[i + 1..]
  {
    hide Partition, Joined, UniqueHandles, KeysBelow, PortIds;
    DeleteAt(t.clients, i, t.client.Keys - {t.clients[i]});
  }

  /** No position of the client list is hidden, so no client is. */
  lemma NoneHidden(t: Topology)
    requires Sound(t) && forall j :: 0 <= j < |t.clients| ==> t.clients[j] in t.client && !t.client[t.clients[j]].hidden
    ensures HiddenClients(t.client) == {}
  {
    hide Partition, Joined, UniqueHandles, KeysBelow, PortIds;
  }

  lemma OwnedMore(port: Ports, cs: set<nat>, c: nat)
    ensures OwnedBy(port, cs) + OwnedBy(port - OwnedBy(port, cs), {c}) == OwnedBy(port, cs + {c})
    ensures OwnedBy(port, {}) == {}
  {
  }

  lemma NoHiddenLink(connection: Connections)
    requires HiddenLinks(connection) == {}
    ensures forall k <- connection :: !connection[k].hidden
  {
    assert forall k <- connection :: connection[k].hidden ==> k in HiddenLinks(connection);
  }

  lemma NoneLeft(connection: Connections)
    ensures HiddenLinks(connection - HiddenLinks(connection)) == {}
  {
  }

  lemma HiddenUnpruned(t: Topology, t': Topology)
    requires t'.client.Keys == t.client.Keys && forall c <- t'.client :: t'.client[c].hidden == t.client[c].hidden
    ensures HiddenClients(t'.client) == HiddenClients(t.client)
  {
  }

  /** With the clients `done` gone and no hidden one left, exactly the hidden ones are gone. */
  lemma HiddenGone(before: Clients, after: Clients, done: set<nat>)
    requires (forall c <- done :: c in before && before[c].hidden) && after.Keys == before.Keys - done && HiddenClients(after) == {}
    requires forall c <- after :: after[c].hidden == before[c].hidden
    ensures done == HiddenClients(before)
  {
    assert forall c <- after :: after[c].hidden ==> c in HiddenClients(after);
    assert forall c <- before :: before[c].hidden ==> c in done || c in after;
  }

  lemma OwnedArePorts(port: Ports, cs: set<nat>)
    ensures OwnedBy(port, cs) <= port.Keys
  {
  }

  lemma PruneOneLink(t: Topology, done: set<nat>, k: nat)
    ensures Prune(Prune(t, done, {}, {}), {k}, {}, {}) == Prune(t, done + {k}, {}, {})
  {
    hide Prune;
    PruneMore(t, done, {}, {}, {k}, {}, {});
    NoMore<nat>({});
    NoMore<SharedPort>({});
  }

  lemma PruneOneClient(t: Topology, done: set<nat>, c: nat)
    ensures var t' := Prune(t, {}, OwnedBy(t.port, done), done);
            Prune(t', {}, OwnedBy(t'.port, {c}), {c}) == Prune(t, {}, OwnedBy(t.port, done + {c}), done + {c})
  {
    hide Restrict, PruneClients, PruneIds, OwnedBy;
    PrunedPorts(t, {}, OwnedBy(t.port, done), done);
    OwnedMore(t.port, done, c);
    PruneMore(t, {}, OwnedBy(t.port, done), done, {}, OwnedBy(t.port - OwnedBy(t.port, done), {c}), {c});
    NoMore<nat>({});
  }

  lemma PruneTwice(t: Topology, ks: set<nat>, ps: set<SharedPort>, cs: set<nat>)
    ensures Prune(Prune(t, ks, {}, {}), {}, ps, cs) == Prune(t, ks, ps, cs)
  {
    hide Prune;
    PruneMore(t, ks, {}, {}, {}, ps, cs);
    NoMore(ks);
    NoMore(ps);
    NoMore(cs);
  }

  lemma HiddenThen(connection: Connections, p: SharedPort, k: nat)
    requires NoShownLink(connection, p) && k in connection && connection[k].Touches(p)
    ensures connection[k].hidden
  {
  }

  // ----- what listeners are told to forget for a moment

  ghost function HidePorts(port: Ports, ps: set<SharedPort>): Ports {
    map p | p in port :: if p in ps then port[p].(hidden := true) else port[p]
  }

  ghost function HideClients(client: Clients, cs: set<nat>): Clients {
    map c | c in client :: if c in cs then client[c].(hidden := true) else client[c]
  }

  /** The graph as listeners see it while told that `ks` and `ps` are gone. */
  ghost function Veil(t: Topology, ks: set<nat>, ps: set<SharedPort>): Topology {
    t.(connection := HideLinks(t.connection, ks), port := HidePorts(t.port, ps))
  }

  ghost function ShownPorts(port: Ports): set<SharedPort> {
    set p | p in port && !port[p].hidden
  }

  lemma VeilNothing(t: Topology)
    ensures Veil(t, {}, {}) == t
  {
    assert HideLinks(t.connection, {}) == t.connection;
    assert HidePorts(t.port, {}) == t.port;
  }

  lemma VeilLink(t: Topology, ks: set<nat>, ps: set<SharedPort>, k: nat)
    requires k in t.connection
    ensures var v := Veil(t, ks, ps);
            && k in v.connection && v.connection[k] == (if k in ks then t.connection[k].(hidden := true) else t.connection[k])
            && Veil(t, ks + {k}, ps) == WithConnection(v, k, v.connection[k].(hidden := true))
            && Veil(t, ks - {k}, ps) == WithConnection(v, k, t.connection[k])
  {
    var v := Veil(t, ks, ps);
    assert HideLinks(t.connection, ks + {k}) == v.connection[k := v.connection[k].(hidden := true)];
    assert HideLinks(t.connection, ks - {k}) == v.connection[k := t.connection[k]];
  }

  lemma VeilPort(t: Topology, ks: set<nat>, ps: set<SharedPort>, p: SharedPort)
    requires p in t.port
    ensures var v := Veil(t, ks, ps);
            && p in v.port && v.port[p] == (if p in ps then t.port[p].(hidden := true) else t.port[p])
            && Veil(t, ks, ps + {p}) == WithPort(v, p, v.port[p].(hidden := true))
            && Veil(t, ks, ps - {p}) == WithPort(v, p, t.port[p])
  {
    var v := Veil(t, ks, ps);
    assert HidePorts(t.port, ps + {p}) == v.port[p := v.port[p].(hidden := true)];
    assert HidePorts(t.port, ps - {p}) == v.port[p := t.port[p]];
  }

  /** One more list position swept: what of `xs` lies before it, and what is still to come. */
  lemma SweepOne<K>(xs: set<K>, list: seq<K>, i: nat)
    requires i < |list|
    ensures xs * Elems(list[..i + 1]) == if list[i] in xs then xs * Elems(list[..i]) + {list[i]} else xs * Elems(list[..i])
    ensures xs - Elems(list[..i + 1]) == if list[i] in xs then xs - Elems(list[..i]) - {list[i]} else xs - Elems(list[..i])
  {
    ElemsNext(list, i);
  }

  lemma SweepAll<K>(xs: set<K>, list: seq<K>, keys: set<K>)
    requires Holds(list, keys) && xs <= keys
    ensures xs * Elems(list[..|list|]) == xs && xs - Elems(list[..|list|]) == {}
    ensures xs * Elems(list[..0]) == {} && xs - Elems(list[..0]) == xs
  {
    assert list[..|list|] == list;
  }

  /** A position not yet reached is not among those swept. */
  lemma NotYet<K>(list: seq<K>, i: nat)
    requires Distinct(list) && i < |list|
    ensures list[i] !in Elems(list[..i])
  {
  }

  lemma VeiledLinks(connection: Connections, p: SharedPort)
    ensures NoShownLink(HideLinks(connection, ShownLinks(connection)), p)
    ensures NoShownLink(HideLinks(connection, ShownLinks(connection) * LinksOf(connection, p)), p)
  {
  }

  lemma VeiledEnd(t: Topology, ks: set<nat>, ps: set<SharedPort>, p: SharedPort)
    requires Sound(t) && Sound(Veil(t, ks, ps)) && p in t.port
    ensures EndOf(Veil(t, ks, ps), p) == EndOf(t, p) && Appeared(Veil(t, ks, ps), p) == Appeared(t, p)
  {
    hide Holds, Partition, Joined, UniqueHandles, KeysBelow, PortIds;
    OwnerListed(t, p);
  }

  lemma VeiledConnection(t: Topology, ks: set<nat>, ps: set<SharedPort>, k: nat)
    requires Sound(t) && Sound(Veil(t, ks, ps)) && k in t.connection
    ensures Connected(Veil(t, ks, ps), k) == Connected(t, k)
  {
    hide Holds, Partition, Joined, UniqueHandles, KeysBelow, PortIds;
    ConnectionEnds(t, k);
    VeiledEnd(t, ks, ps, t.connection[k].port1);
    VeiledEnd(t, ks, ps, t.connection[k].port2);
  }

  /** Skipping connection ids shows nothing. */
  lemma SkipConnectionId(t: Topology, m: Mirror)
    requires Sound(t)
    ensures Sound(t.(nextConnectionId := t.nextConnectionId + 1))
    ensures Seen(t, m) ==> Seen(t.(nextConnectionId := t.nextConnectionId + 1), m)
  {
    hide Holds, Partition, Joined, UniqueHandles, PortIds, PortsShown, LinksShown, ViewClients, ViewPorts, ViewLinks;
  }

  lemma MovedPortShown(t: Topology, p: SharedPort, c: nat, ks: set<nat>)
    requires p in t.port && t.port[p].owner in t.client && c in t.client && !t.port[p].hidden
    ensures var t2 := WithPort(Veil(t, ks, {}), p, t.port[p].(hidden := true));
            var t3 := Moved(t2, p, c);
            WithPort(t3, p, t3.port[p].(hidden := false)) == Veil(Moved(t, p, c), ks, {})
  {
    var t2 := WithPort(Veil(t, ks, {}), p, t.port[p].(hidden := true));
    var t3 := Moved(t2, p, c);
    assert t2.port.Keys == t.port.Keys;
    var a, b := WithPort(t3, p, t3.port[p].(hidden := false)), Veil(Moved(t, p, c), ks, {});
    assert a.port == b.port;
  }

  lemma SeenSound(t: Topology, m: Mirror)
    requires Seen(t, m)
    ensures Sound(t) && Shown(t)
  {
    hide Sound, Shown;
  }

  lemma LinksInGraph(connection: Connections, p: SharedPort)
    ensures ShownLinks(connection) <= connection.Keys && LinksOf(connection, p) <= connection.Keys
  {
  }

  lemma LinkShownHere(connection: Connections, p: SharedPort, k: nat)
    requires k in connection
    ensures k in ShownLinks(connection) <==> !connection[k].hidden
    ensures k in LinksOf(connection, p) <==> connection[k].Touches(p)
  {
  }

  lemma ShownEnds(t: Topology, ks: set<nat>, k: nat)
    requires Sound(t) && Shown(t) && k in t.connection && !t.connection[k].hidden
    ensures var v := Veil(t, ks, {});
            && t.connection[k].port1 in v.port && !v.port[t.connection[k].port1].hidden
            && t.connection[k].port2 in v.port && !v.port[t.connection[k].port2].hidden
  {
    hide Sound;
  }

  lemma SkipUnderVeil(t: Topology, ks: set<nat>)
    requires Sound(t)
    ensures var t' := t.(nextConnectionId := t.nextConnectionId + 1);
            && Sound(t') && (Shown(t) ==> Shown(t'))
            && Veil(t, ks, {}).(nextConnectionId := t.nextConnectionId + 1) == Veil(t', ks, {})
            && Veil(t, ks, {}).nextConnectionId == t.nextConnectionId
  {
    hide Sound;
    SkipConnectionId(t, NOTHING);
  }

  lemma PortsUnveiled(port: Ports)
    ensures HidePorts(port, {}) == port
  {
  }

  /** A hidden port has no visible connection. */
  lemma HiddenPortLinks(t: Topology, m: Mirror, p: SharedPort)
    requires Seen(t, m) && p in t.port && t.port[p].hidden
    ensures NoShownLink(t.connection, p)
  {
    hide Sound, PortsShown, ViewClients, ViewPorts, ViewLinks;
  }

  /** Moving a port to a visible client keeps the visibility rule. */
  lemma MovedShown(t: Topology, p: SharedPort, c: nat)
    requires Shown(t) && Sound(t) && p in t.port && t.port[p].owner in t.client && c in t.client && !t.client[c].hidden
    ensures Shown(Moved(t, p, c))
  {
    hide Sound;
  }

  lemma ShownAreKeys(t: Topology)
    ensures ShownLinks(t.connection) <= t.connection.Keys && ShownPorts(t.port) <= t.port.Keys
  {
  }

  lemma LinkShown(connection: Connections, k: nat)
    requires k in connection
    ensures k in ShownLinks(connection) <==> !connection[k].hidden
  {
  }

  lemma PortShown(port: Ports, p: SharedPort)
    requires p in port
    ensures p in ShownPorts(port) <==> !port[p].hidden
  {
  }

  lemma AllVeiled(t: Topology, ps: set<SharedPort>, p: SharedPort)
    ensures NoShownLink(Veil(t, ShownLinks(t.connection), ps).connection, p)
  {
    VeiledLinks(t.connection, p);
  }

  lemma AllPortsVeiled(t: Topology, c: nat)
    ensures NoShownPort(Veil(t, ShownLinks(t.connection), ShownPorts(t.port)).port, c)
  {
  }

  lemma EveryClientListed(t: Topology)
    requires Sound(t)
    ensures forall c <- t.client :: exists j :: 0 <= j < |t.clients| && t.clients[j] == c
  {
    hide Partition, Joined, UniqueHandles, KeysBelow, PortIds;
  }

  lemma EveryPortListed(t: Topology)
    requires Sound(t)
    ensures forall p <- t.port :: exists j :: 0 <= j < |t.ports| && t.ports[j] == p
  {
    hide Partition, Joined, UniqueHandles, KeysBelow, PortIds;
  }

  lemma EveryConnectionListed(t: Topology)
    requires Sound(t)
    ensures forall k <- t.connection :: exists j :: 0 <= j < |t.connections| && t.connections[j] == k
  {
    hide Partition, Joined, UniqueHandles, KeysBelow, PortIds;
  }

  lemma ShownOwner(t: Topology, ks: set<nat>, ps: set<SharedPort>, p: SharedPort)
    requires Shown(t) && p in t.port && !t.port[p].hidden
    ensures var v := Veil(t, ks, ps);
            p in v.port && v.port[p].owner in v.client && !v.client[v.port[p].owner].hidden
  {
  }

  /** A graph has only one view. */
  lemma SeenOnce(t: Topology, m1: Mirror, m2: Mirror)
    requires Seen(t, m1) && Seen(t, m2)
    ensures m1 == m2
  {
    hide Sound, Shown, ViewClients, ViewPorts, ViewLinks;
  }

  // ----- the same, field by field

  lemma LinksHidden(connection: Connections, p: SharedPort)
    ensures var after := HideLinks(connection, LinksOf(connection, p));
            && after.Keys == connection.Keys
            && forall k <- after ::
                 after[k] == connection[k].(hidden := connection[k].hidden || connection[k].port1 == p || connection[k].port2 == p)
  {
  }

  lemma Asked(t: Topology, accepted: set<nat>)
    requires Sound(t)
    ensures forall k <- t.connection :: t.connection[k].port1 in t.port && t.connection[k].port2 in t.port
    ensures var after := MarkChanging(t.connection, Eligible(t.port, t.connection) * accepted);
            after.Keys == t.connection.Keys
            && forall k <- after :: var n := t.connection[k];
                 after[k] == if n.hidden && !n.changing && !t.port[n.port1].hidden && !t.port[n.port2].hidden
                             then n.(changing := k in accepted) else n
    ensures var asked := Restrict(t.connections, Eligible(t.port, t.connection));
            asked == Restrict(t.connections, Elems(asked))
            && forall k :: k in asked <==> k in t.connection && var n := t.connection[k];
                 n.hidden && !n.changing && !t.port[n.port1].hidden && !t.port[n.port2].hidden
  {
    hide Partition, UniqueHandles, KeysBelow, PortIds, Restrict;
    RestrictMembers(t.connections, Eligible(t.port, t.connection));
    RestrictAgain(t.connections, Eligible(t.port, t.connection));
  }

  lemma PortPruned(t: Topology, p: SharedPort) returns (i: nat, j: nat)
    requires Sound(t) && p in t.port
    ensures t.port[p].owner in t.client
    ensures var t' := Prune(t, LinksOf(t.connection, p), {p}, {}); var o := t.port[p].owner; var list := t.client[o].ports;
            && t'.port == t.port - {p} && t'.clients == t.clients
            && i < |t.ports| && t.ports[i] == p && t'.ports == t.ports[..i] + t.ports[i + 1..]
            && j < |list| && list[j] == p && t'.client == t.client[o := t.client[o].(ports := list[..j] + list[j + 1..])]
  {
    hide Sound, Erase, Restrict, PruneIds, PruneClients;
    PrunePort(t, p);
    PortErased(t, p);
    OwnerListed(t, p);
    j := EraseCuts(t.client[t.port[p].owner].ports, p);
    EveryPortListed(t);
    i := EraseCuts(t.ports, p);
  }

  lemma LinksPruned(t: Topology, p: SharedPort, ps: set<SharedPort>)
    ensures var t' := Prune(t, LinksOf(t.connection, p), ps, {});
            && t'.connection == (map k | k in t.connection && t.connection[k].port1 != p && t.connection[k].port2 != p :: t.connection[k])
            && t'.connections == Restrict(t.connections, t'.connection.Keys)
  {
    assert (t.connection - LinksOf(t.connection, p)).Keys == t.connection.Keys - LinksOf(t.connection, p);
  }

  /** Clients that go with all their ports leave the others as they were. */
  lemma ClientsPruned(t: Topology, ks: set<nat>, cs: set<nat>)
    requires Sound(t)
    ensures forall p <- t.port :: t.port[p].owner in t.client
    ensures var t' := Prune(t, ks, OwnedBy(t.port, cs), cs);
            && t'.client == t.client - cs
            && t'.port == (map p | p in t.port && t.port[p].owner !in cs :: t.port[p])
            && t'.clients == Restrict(t.clients, t'.client.Keys) && t'.ports == Restrict(t.ports, t'.port.Keys)
            && t'.connection == t.connection - ks && t'.connections == Restrict(t.connections, t'.connection.Keys)
  {
    hide Holds, Joined, UniqueHandles, KeysBelow, PortIds, Restrict;
    var ps := OwnedBy(t.port, cs);
    var t' := Prune(t, ks, ps, cs);
    forall c <- t.client | c !in cs
      ensures t'.client[c] == t.client[c]
    {
      RestrictAll(t.client[c].ports, Elems(t.client[c].ports) - ps);
    }
    assert t'.client.Keys == t.client.Keys - cs && t'.port.Keys == t.port.Keys - ps && t'.connection.Keys == t.connection.Keys - ks;
  }

  /** One client with all its ports and their connections. */
  lemma ClientPruned(t: Topology, c: nat)
    requires Sound(t) && c in t.client
    ensures forall p <- t.port :: t.port[p].owner in t.client
    ensures forall k <- t.connection :: t.connection[k].port1 in t.port && t.connection[k].port2 in t.port
    ensures var ps := Elems(t.client[c].ports); var t' := Prune(t, LinksOfAll(t.connection, ps), ps, {c});
            && t'.client == t.client - {c}
            && t'.port == (map p | p in t.port && t.port[p].owner != c :: t.port[p])
            && t'.connection == (map k | k in t.connection && t.port[t.connection[k].port1].owner != c
                                         && t.port[t.connection[k].port2].owner != c :: t.connection[k])
            && t'.clients == Restrict(t.clients, t'.client.Keys) && t'.ports == Restrict(t.ports, t'.port.Keys)
            && t'.connections == Restrict(t.connections, t'.connection.Keys)
  {
    hide Holds, Partition, UniqueHandles, KeysBelow, PortIds, Restrict, Prune, Elems;
    var ps := Elems(t.client[c].ports);
    OwnPorts(t, c);
    assert LinksOfAll(t.connection, ps) == set k | k in t.connection &&
      (t.port[t.connection[k].port1].owner == c || t.port[t.connection[k].port2].owner == c);
    ClientsPruned(t, LinksOfAll(t.connection, ps), {c});
  }

  lemma ShownLeft(t: Topology)
    requires Sound(t)
    ensures forall p <- t.port :: t.port[p].owner in t.client
    ensures var cs := HiddenClients(t.client); var t' := Prune(t, HiddenLinks(t.connection), OwnedBy(t.port, cs), cs);
            && t'.client == (map c | c in t.client && !t.client[c].hidden :: t.client[c])
            && t'.port == (map p | p in t.port && !t.client[t.port[p].owner].hidden :: t.port[p])
            && t'.connection == (map k | k in t.connection && !t.connection[k].hidden :: t.connection[k])
            && t'.clients == Restrict(t.clients, t'.client.Keys) && t'.ports == Restrict(t.ports, t'.port.Keys)
            && t'.connections == Restrict(t.connections, t'.connection.Keys)
  {
    hide Sound, Restrict, Prune;
    ClientsPruned(t, HiddenLinks(t.connection), HiddenClients(t.client));
  }

  lemma RealHidden(t: Topology, live: set<nat>)
    requires Sound(t)
    ensures forall p :: p in RealPorts(t.port, live) <==> p in t.port && !t.port[p].hidden && t.port[p].owner in live
    ensures forall c :: c in RealClients(t.client, live) <==> c in t.client && !t.client[c].hidden && c in live
    ensures var after := HideLinks(t.connection, RealLinks(t.port, t.connection, live));
            after.Keys == t.connection.Keys
            && forall k <- after :: var n := t.connection[k];
                 n.port1 in t.port && n.port2 in t.port
                 && after[k] == n.(hidden := n.hidden || t.port[n.port1].owner in live || t.port[n.port2].owner in live)
    ensures var after := HidePorts(t.port, RealPorts(t.port, live));
            after.Keys == t.port.Keys
            && forall p <- after :: after[p] == t.port[p].(hidden := t.port[p].hidden || t.port[p].owner in live)
    ensures var after := HideClients(t.client, RealClients(t.client, live));
            after.Keys == t.client.Keys
            && forall c <- after :: after[c] == t.client[c].(hidden := t.client[c].hidden || c in live)
  {
    hide Holds, UniqueHandles, KeysBelow, PortIds;
  }

  // ----- what a listener sees, spelled out

  lemma SeenClients(t: Topology, m: Mirror)
    requires Seen(t, m)
    ensures forall c :: c in m.clients <==> c in t.client && !t.client[c].hidden
    ensures forall c <- m.clients :: m.clients[c] == t.client[c].name
  {
    hide Sound, Shown, ViewPorts, ViewLinks;
  }

  lemma SeenPorts(t: Topology, m: Mirror)
    requires Seen(t, m)
    ensures forall p <- t.port :: !t.port[p].hidden ==>
              t.port[p].id in m.ports
              && m.ports[t.port[p].id] == PortInfo(t.port[p].owner, t.port[p].name, t.port[p].flags, t.port[p].kind)
    ensures forall i <- m.ports :: exists p <- t.port :: !t.port[p].hidden && t.port[p].id == i
    ensures forall p <- t.port, q <- t.port :: t.port[p].id == t.port[q].id ==> p == q
  {
    hide Holds, Partition, Joined, UniqueHandles, KeysBelow, ViewClients, ViewLinks, Shown;
    forall i <- m.ports
      ensures exists p <- t.port :: !t.port[p].hidden && t.port[p].id == i
    {
      assert t.byId[i] in t.port;
    }
  }

  lemma FreshPortId(t: Topology, p: SharedPort)
    requires Sound(t) && p in t.port
    ensures t.port[p].id < t.nextPortId
    ensures forall q <- t.port :: q != p ==> t.port[q].id != t.port[p].id
  {
    hide Holds, Partition, Joined, UniqueHandles, KeysBelow;
  }

  lemma SeenLinks(t: Topology, m: Mirror)
    requires Seen(t, m)
    ensures forall k :: k in m.links <==> k in t.connection && !t.connection[k].hidden
    ensures forall k <- m.links :: var n := t.connection[k];
              n.port1 in t.port && n.port2 in t.port && m.links[k] == Link(t.port[n.port1].id, t.port[n.port2].id)
  {
    hide Holds, Partition, PortIds, UniqueHandles, KeysBelow, ViewClients, ViewPorts, Shown;
  }

  // ----- what belongs to the clients `live`

  ghost function RealLinks(port: Ports, connection: Connections, live: set<nat>): set<nat> {
    set k | k in connection && !connection[k].hidden
            && ((connection[k].port1 in port && port[connection[k].port1].owner in live)
             || (connection[k].port2 in port && port[connection[k].port2].owner in live))
  }

  ghost function RealPorts(port: Ports, live: set<nat>): set<SharedPort> {
    set p | p in port && !port[p].hidden && port[p].owner in live
  }

  ghost function RealClients(client: Clients, live: set<nat>): set<nat> {
    set c | c in client && !client[c].hidden && c in live
  }

  lemma RealLink(port: Ports, connection: Connections, live: set<nat>, k: nat)
    requires k in connection && connection[k].port1 in port && connection[k].port2 in port
    ensures k in RealLinks(port, connection, live) <==>
              (!connection[k].hidden && (port[connection[k].port1].owner in live || port[connection[k].port2].owner in live))
  {
  }

  lemma RealPort(port: Ports, live: set<nat>, p: SharedPort)
    requires p in port
    ensures p in RealPorts(port, live) <==> !port[p].hidden && port[p].owner in live
  {
  }

  lemma RealClient(client: Clients, live: set<nat>, c: nat)
    requires c in client
    ensures c in RealClients(client, live) <==> !client[c].hidden && c in live
  {
  }

  lemma RealLinksHidden(port: Ports, connection: Connections, live: set<nat>)
    ensures forall p <- RealPorts(port, live) :: NoShownLink(HideLinks(connection, RealLinks(port, connection, live)), p)
  {
  }

  lemma RealPortsHidden(port: Ports, live: set<nat>)
    ensures forall c <- live :: NoShownPort(HidePorts(port, RealPorts(port, live)), c)
  {
  }

  /** A node whose position is not yet reached is as it was. */
  lemma HideUntouched(connection: Connections, ks: set<nat>, list: seq<nat>, i: nat)
    requires Distinct(list) && i < |list| && list[i] in connection
    ensures HideLinks(connection, ks * Elems(list[..i]))[list[i]] == connection[list[i]]
  {
    NotYet(list, i);
  }

  lemma PortsNext(port: Ports, ps: set<SharedPort>, list: seq<SharedPort>, i: nat)
    requires Distinct(list) && i < |list| && list[i] in port
    ensures var before := HidePorts(port, ps * Elems(list[..i]));
            && before.Keys == port.Keys && before[list[i]] == port[list[i]]
            && HidePorts(port, ps * Elems(list[..i + 1])) ==
               if list[i] in ps then before[list[i] := before[list[i]].(hidden := true)] else before
  {
    NotYet(list, i);
    ElemsNext(list, i);
  }

  lemma PortsDone(port: Ports, ps: set<SharedPort>, list: seq<SharedPort>)
    requires Holds(list, port.Keys)
    ensures HidePorts(port, ps * Elems(list[..|list|])) == HidePorts(port, ps)
    ensures HidePorts(port, ps * Elems(list[..0])) == port
    ensures forall p <- port :: p in ps * Elems(list[..|list|]) <==> p in ps
  {
    assert list[..|list|] == list;
  }

  lemma ClientsNext(client: Clients, cs: set<nat>, list: seq<nat>, i: nat)
    requires Distinct(list) && i < |list| && list[i] in client
    ensures var before := HideClients(client, cs * Elems(list[..i]));
            && before.Keys == client.Keys && before[list[i]] == client[list[i]]
            && HideClients(client, cs * Elems(list[..i + 1])) ==
               if list[i] in cs then before[list[i] := before[list[i]].(hidden := true)] else before
  {
    NotYet(list, i);
    ElemsNext(list, i);
  }

  lemma ClientsDone(client: Clients, cs: set<nat>, list: seq<nat>)
    requires Holds(list, client.Keys)
    ensures HideClients(client, cs * Elems(list[..|list|])) == HideClients(client, cs)
    ensures HideClients(client, cs * Elems(list[..0])) == client
    ensures forall c <- client :: c in cs * Elems(list[..|list|]) <==> c in cs
  {
    assert list[..|list|] == list;
  }

  lemma PortsKept(port: Ports, ps: set<SharedPort>)
    ensures HidePorts(port, ps).Keys == port.Keys
  {
  }

  lemma ClientsKept(client: Clients, cs: set<nat>)
    ensures var after := HideClients(client, cs);
            after.Keys == client.Keys && forall c <- client :: after[c].handle == client[c].handle
  {
  }

  lemma Handles(t: Topology)
    requires Sound(t)
    ensures forall c <- t.client, d <- t.client :: t.client[c].handle == t.client[d].handle ==> c == d
  {
    hide Holds, Partition, Joined, KeysBelow, PortIds;
  }
}
