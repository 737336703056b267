/** The patchbay signals of a virtual graph, and the mirror a listener keeps by replaying them. */
module Patchbay {

  import opened Wrappers

  /** One end of a connection, as signals and `GetGraph` name it. */
  datatype End = End(clientId: nat, clientName: string, portId: nat, portName: string)

  datatype Change =
    | ClientAppeared(id: nat, name: string)
    | ClientDisappeared(id: nat, name: string)
    | ClientRenamed(id: nat, oldName: string, name: string)
    | PortAppeared(end: End, flags: nat, kind: nat)
    | PortDisappeared(end: End)
    | PortRenamed(clientId: nat, clientName: string, id: nat, oldName: string, name: string)
    | PortsConnected(end1: End, end2: End, id: nat)
    | PortsDisconnected(end1: End, end2: End, id: nat)

  datatype Signal = Signal(version: nat, change: Change)

  datatype PortInfo = PortInfo(client: nat, name: string, flags: nat, kind: nat)

  datatype Link = Link(port1: nat, port2: nat)

  /** What a listener knows, keyed by id. */
  datatype Mirror = Mirror(clients: map<nat, string>, ports: map<nat, PortInfo>, links: map<nat, Link>)

  const NOTHING := Mirror(map[], map[], map[])

  predicate KnowsClient(m: Mirror, id: nat, name: string) {
    id in m.clients && m.clients[id] == name
  }

  predicate KnowsEnd(m: Mirror, e: End) {
    && KnowsClient(m, e.clientId, e.clientName)
    && e.portId in m.ports
    && m.ports[e.portId].client == e.clientId
    && m.ports[e.portId].name == e.portName
  }

  predicate ClientInUse(m: Mirror, id: nat) {
    exists p <- m.ports :: m.ports[p].client == id
  }

  predicate PortInUse(m: Mirror, id: nat) {
    exists k <- m.links :: m.links[k].port1 == id || m.links[k].port2 == id
  }

  /**
   * A strict listener: it refuses a signal that names something it does not know, gives it a
   * name it does not have, introduces a known id, or takes away what is still in use.
   */
  function Apply(m: Mirror, c: Change): Option<Mirror> {
    match c
    case ClientAppeared(id, name) =>
      if id in m.clients then None
      else Some(m.(clients := m.clients[id := name]))
    case ClientDisappeared(id, name) =>
      if !KnowsClient(m, id, name) || ClientInUse(m, id) then None
      else Some(m.(clients := m.clients - {id}))
    case ClientRenamed(id, oldName, name) =>
      if !KnowsClient(m, id, oldName) then None
      else Some(m.(clients := m.clients[id := name]))
    case PortAppeared(e, flags, kind) =>
      if !KnowsClient(m, e.clientId, e.clientName) || e.portId in m.ports then None
      else Some(m.(ports := m.ports[e.portId := PortInfo(e.clientId, e.portName, flags, kind)]))
    case PortDisappeared(e) =>
      if !KnowsEnd(m, e) || PortInUse(m, e.portId) then None
      else Some(m.(ports := m.ports - {e.portId}))
    case PortRenamed(clientId, clientName, id, oldName, name) =>
      if !KnowsEnd(m, End(clientId, clientName, id, oldName)) then None
      else Some(m.(ports := m.ports[id := m.ports[id].(name := name)]))
    case PortsConnected(e1, e2, id) =>
      if !KnowsEnd(m, e1) || !KnowsEnd(m, e2) || id in m.links then None
      else Some(m.(links := m.links[id := Link(e1.portId, e2.portId)]))
    case PortsDisconnected(e1, e2, id) =>
      if !KnowsEnd(m, e1) || !KnowsEnd(m, e2) || id !in m.links || m.links[id] != Link(e1.portId, e2.portId) then None
      else Some(m.(links := m.links - {id}))
  }

  /** Exactly what the listener accepts: known clients and ports under their own names, and new ids. */
  lemma Strict(m: Mirror, e: End, e': End, id: nat, name: string, name': string, flags: nat, kind: nat)
    ensures var known := e.clientId in m.clients && m.clients[e.clientId] == e.clientName && e.portId in m.ports
                         && m.ports[e.portId].client == e.clientId && m.ports[e.portId].name == e.portName;
            var known' := e'.clientId in m.clients && m.clients[e'.clientId] == e'.clientName && e'.portId in m.ports
                          && m.ports[e'.portId].client == e'.clientId && m.ports[e'.portId].name == e'.portName;
            && (Apply(m, PortDisappeared(e)).Some? <==>
                  known && forall k <- m.links :: m.links[k].port1 != e.portId && m.links[k].port2 != e.portId)
            && (Apply(m, PortRenamed(e.clientId, e.clientName, e.portId, e.portName, name)).Some? <==> known)
            && (Apply(m, PortsConnected(e, e', id)).Some? <==> known && known' && id !in m.links)
            && (Apply(m, PortsDisconnected(e, e', id)).Some? <==>
                  known && known' && id in m.links && m.links[id] == Link(e.portId, e'.portId))
    ensures Apply(m, ClientAppeared(id, name)).Some? <==> id !in m.clients
    ensures Apply(m, ClientDisappeared(id, name)).Some? <==>
              id in m.clients && m.clients[id] == name && forall p <- m.ports :: m.ports[p].client != id
    ensures Apply(m, ClientRenamed(id, name, name')).Some? <==> id in m.clients && m.clients[id] == name
    ensures Apply(m, PortAppeared(e, flags, kind)).Some? <==>
              e.clientId in m.clients && m.clients[e.clientId] == e.clientName && e.portId !in m.ports
  {
  }

  function Replay(m: Mirror, signals: seq<Signal>): Option<Mirror> {
    if signals == [] then Some(m)
    else
      match Replay(m, signals[..|signals| - 1])
      case None => None
      case Some(m') => Apply(m', signals[|signals| - 1].change)
  }

  lemma ReplayOne(m: Mirror, signals: seq<Signal>, s: Signal)
    ensures Replay(m, signals + [s]) ==
            match Replay(m, signals) { case None => None case Some(m') => Apply(m', s.change) }
  {
    assert (signals + [s])[..|signals|] == signals;
  }

  /** A mirror taken earlier, brought up to date by the signals sent since, is the later mirror. */
  lemma {:induction false} CatchUp(m: Mirror, earlier: seq<Signal>, since: seq<Signal>)
    requires Replay(m, earlier).Some?
    ensures Replay(m, earlier + since) == Replay(Replay(m, earlier).value, since)
  {
    if since == [] {
      assert earlier + since == earlier;
    } else {
      var n := |since| - 1;
      CatchUp(m, earlier, since[..n]);
      assert earlier + since == (earlier + since[..n]) + [since[n]];
      ReplayOne(m, earlier + since[..n], since[n]);
    }
  }

  /** A listener's picture is closed: ports have their client, links have their ports. */
  predicate Closed(m: Mirror) {
    && (forall p <- m.ports :: m.ports[p].client in m.clients)
    && (forall k <- m.links :: m.links[k].port1 in m.ports && m.links[k].port2 in m.ports)
  }

  lemma {:induction false} ReplayClosed(m: Mirror, signals: seq<Signal>)
    requires Closed(m)
    ensures Replay(m, signals).Some? ==> Closed(Replay(m, signals).value)
  {
    if signals != [] {
      var n := |signals| - 1;
      ReplayClosed(m, signals[..n]);
      match Replay(m, signals[..n])
      case None =>
      case Some(m1) => ApplyClosed(m1, signals[n].change);
    }
  }

  lemma ApplyClosed(m: Mirror, c: Change)
    requires Closed(m)
    ensures Apply(m, c).Some? ==> Closed(Apply(m, c).value)
  {
    match c
    case ClientDisappeared(id, name) =>
      if Apply(m, c).Some? {
        assert forall p <- m.ports :: m.ports[p].client != id;
      }
    case PortDisappeared(e) =>
      if Apply(m, c).Some? {
        assert forall k <- m.links :: m.links[k].port1 != e.portId && m.links[k].port2 != e.portId;
      }
    case _ =>
  }
}
