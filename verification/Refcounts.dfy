/** Several graphs that share ports: every port counts exactly the graphs it is in. */
module Refcounts {
  import opened Lists
  import opened Topologies
  import opened Graphs

  /** The graphs that hold the port. */
  ghost function Holders(gs: set<Graph>, p: SharedPort): set<Graph>
    reads gs
  {
    set g | g in gs && p in g.port
  }

  /** A port that is in some graph is alive, and its count is the number of graphs it is in. */
  ghost predicate Conserved(gs: set<Graph>)
    reads gs, set g, p | g in gs && p in g.port :: p
  {
    forall g <- gs, p <- g.port :: Counts(gs, p)
  }

  ghost predicate Counts(gs: set<Graph>, p: SharedPort)
    reads gs, p
  {
    !p.destroyed && p.refcount == |Holders(gs, p)|
  }

  /** The graph itself and the others. */
  lemma CountApart(gs: set<Graph>, g: Graph, p: SharedPort)
    requires g in gs
    ensures |Holders(gs, p)| == |Holders(gs - {g}, p)| + (if p in g.port then 1 else 0)
    ensures Holders(gs - {g}, p) <= Holders(gs, p)
  {
    if p in g.port {
      assert Holders(gs, p) == Holders(gs - {g}, p) + {g};
    } else {
      assert Holders(gs, p) == Holders(gs - {g}, p);
    }
  }

  /** What each port counts, with the entries in one graph set apart. */
  ghost predicate CountsApart(gs: set<Graph>, g: Graph, except: SharedPort)
    reads gs, g, set h, p | h in gs && p in h.port :: p
  {
    forall h <- gs, p <- h.port :: p != except ==>
      !p.destroyed && p.refcount == |Holders(gs - {g}, p)| + (if p in g.port then 1 else 0)
  }

  lemma Apart(gs: set<Graph>, g: Graph, except: SharedPort)
    requires g in gs
    ensures Conserved(gs) ==> CountsApart(gs, g, except)
    ensures CountsApart(gs, g, except) && (Holders(gs, except) != {} ==> Counts(gs, except)) ==> Conserved(gs)
  {
    forall h, p | h in gs && p in h.port
      ensures Counts(gs, p) <==> !p.destroyed && p.refcount == |Holders(gs - {g}, p)| + (if p in g.port then 1 else 0)
      ensures p == except ==> h in Holders(gs, except)
    {
      CountApart(gs, g, p);
    }
  }

  /** A new port counts no graph yet; one more graph is one more count. */
  method AddPort(ghost gs: set<Graph>, g: Graph, c: nat, p: SharedPort, name: string, kind: nat, flags: nat,
                 hidden: bool, accepted: set<nat>)
    requires g in gs && g.Valid() && Conserved(gs) && c in g.client && p !in g.port
    requires !p.destroyed && p.refcount == |Holders(gs, p)|
    modifies g, p`refcount
    ensures g.Valid() && Conserved(gs) && p in g.port && p.refcount == old(p.refcount) + 1
  {
    hide Graph.Valid, Holders, Conserved;
    Apart(gs, g, p);
    CountApart(gs, g, p);
    g.AddPort(c, p, name, kind, flags, hidden, accepted);
    CountApart(gs, g, p);
    Apart(gs, g, p);
  }

  lemma OneCounts(gs: set<Graph>, g: Graph, p: SharedPort)
    requires Conserved(gs) && g in gs && p in g.port
    ensures Counts(gs, p) && g in Holders(gs, p) && p.refcount > 0
  {
  }

  /** A port that leaves its last graph is destroyed, and only then. */
  method RemovePort(ghost gs: set<Graph>, g: Graph, p: SharedPort) returns (c: nat)
    requires g in gs && g.Valid() && Conserved(gs) && p in g.port
    modifies g, p`refcount, p`destroyed
    ensures g.Valid() && Conserved(gs) && p !in g.port
    ensures p.refcount == |Holders(gs, p)| && (p.destroyed <==> Holders(gs, p) == {})
  {
    hide Graph.Valid, Holders, Conserved, Prune, LinksOf, Sound, Seen;
    OneCounts(gs, g, p);
    Apart(gs, g, p);
    CountApart(gs, g, p);
    PrunedPorts(g.State(), LinksOf(g.connection, p), {p}, {});
    c := g.RemovePort(p);
    CountApart(gs, g, p);
    Apart(gs, g, p);
  }

  ghost function Rest(gs: set<Graph>, g: Graph, jack: Graph?): set<Graph> {
    if jack == null then gs - {g} else gs - {g} - {jack}
  }

  ghost function Entry(g: Graph?, p: SharedPort): nat
    reads g
  {
    if g != null && p in g.port then 1 else 0
  }

  lemma CountApartBoth(gs: set<Graph>, g: Graph, jack: Graph?, p: SharedPort)
    requires g in gs && (jack != null ==> jack in gs && jack != g)
    ensures |Holders(gs, p)| == |Holders(Rest(gs, g, jack), p)| + Entry(g, p) + Entry(jack, p)
  {
    CountApart(gs, g, p);
    if jack != null {
      CountApart(gs - {g}, jack, p);
    }
  }

  /** What the ports outside `ps` count, with the entries in two graphs set apart. */
  ghost predicate CountsBut(gs: set<Graph>, g: Graph, jack: Graph?, ps: set<SharedPort>)
    reads gs, g, jack, set h, p | h in gs && p in h.port :: p
  {
    forall h <- gs, p <- h.port :: p !in ps ==>
      !p.destroyed && p.refcount == |Holders(Rest(gs, g, jack), p)| + Entry(g, p) + Entry(jack, p)
  }

  lemma ApartBoth(gs: set<Graph>, g: Graph, jack: Graph?, ps: set<SharedPort>)
    requires g in gs && (jack != null ==> jack in gs && jack != g)
    ensures Conserved(gs) ==> CountsBut(gs, g, jack, ps)
    ensures CountsBut(gs, g, jack, ps) && (forall p <- ps :: Holders(gs, p) != {} ==> Counts(gs, p)) ==> Conserved(gs)
  {
    forall h, p | h in gs && p in h.port
      ensures Counts(gs, p) <==> !p.destroyed && p.refcount == |Holders(Rest(gs, g, jack), p)| + Entry(g, p) + Entry(jack, p)
      ensures h in Holders(gs, p)
    {
      CountApartBoth(gs, g, jack, p);
    }
  }

  lemma AllOwed(gs: set<Graph>, g: Graph, jack: Graph?, due: map<SharedPort, nat>)
    requires Conserved(gs) && g in gs && (jack != null ==> jack in gs && jack != g)
    requires due == map p | p in g.port :: |Holders(Rest(gs, g, jack), p)|
    ensures Owed(g.port.Keys, due, HeldBy(jack))
  {
    forall p <- g.port
      ensures !p.destroyed && p.refcount == due[p] + 1 + (if p in HeldBy(jack) then 1 else 0)
    {
      assert Counts(gs, p);
      CountApartBoth(gs, g, jack, p);
    }
  }

  /** Clearing a room's graph, whose callback takes each port out of the JACK graph first. */
  method Clear(ghost gs: set<Graph>, g: Graph, jack: Graph?)
    requires g in gs && g.Valid() && Conserved(gs) && (jack != null ==> jack in gs && jack != g && jack.Valid())
    modifies g, g.port.Keys`refcount, g.port.Keys`destroyed
    modifies if jack == null then {} else {jack}
    ensures g.Valid() && (jack != null ==> jack.Valid()) && Conserved(gs) && g.port == map[]
    ensures forall p <- old(g.port) :: p.destroyed <==> Holders(gs, p) == {}
  {
    hide Graph.Valid, Holders, Conserved, Owed, Released, Counts;
    ghost var ps := g.port.Keys;
    ghost var due := map p | p in g.port :: |Holders(Rest(gs, g, jack), p)|;
    AllOwed(gs, g, jack, due);
    ApartBoth(gs, g, jack, ps);
    g.Clear(jack, due);
    AllReleased(gs, g, jack, ps, due);
    ApartBoth(gs, g, jack, ps);
  }

  /** What happens to the two graphs alone. */
  method CutClient(g: Graph, c: nat, jack: Graph?, ghost ps: set<SharedPort>, ghost due: map<SharedPort, nat>)
    requires g.Valid() && c in g.client && ps == OwnedBy(g.port, {c})
    requires jack != null ==> jack != g && jack.Valid()
    requires Owed(g.port.Keys, due, HeldBy(jack))
    modifies g, ps`refcount, ps`destroyed
    modifies if jack == null then {} else {jack}
    ensures g.Valid() && c !in g.client && g.port == old(g.port) - ps && Released(ps, due)
    ensures jack != null ==> jack.Valid() && jack.port == old(jack.port) - ps
  {
    hide Graph.Valid, Owed, Released, Prune, LinksOfAll, Sound, Seen, OwnedBy;
    ghost var t := g.State();
    g.IsSound();
    OwnPorts(t, c);
    OwnedArePorts(g.port, {c});
    PrunedMaps(t, LinksOfAll(t.connection, ps), ps, {c});
    SomeOwed(g.port.Keys, due, HeldBy(jack), ps, HeldBy(jack));
    g.PortsListed(t, c);
    g.RemoveClientInternal(c, jack, due);
  }

  /** What the other graphs see of it: nothing but ports with fewer entries. */
  method ReleaseClient(ghost gs: set<Graph>, g: Graph, c: nat, jack: Graph?, ghost ps: set<SharedPort>, ghost due: map<SharedPort, nat>)
    requires g in gs && (jack != null ==> jack in gs && jack != g && jack.Valid())
    requires g.Valid() && c in g.client && ps == OwnedBy(g.port, {c}) && ps <= g.port.Keys
    requires Owed(g.port.Keys, due, HeldBy(jack)) && CountsBut(gs, g, jack, ps)
    requires due == map p | p in g.port :: |Holders(Rest(gs, g, jack), p)|
    modifies g, ps`refcount, ps`destroyed
    modifies if jack == null then {} else {jack}
    ensures g.Valid() && c !in g.client && g.port == old(g.port) - ps && Released(ps, due)
    ensures jack != null ==> jack.Valid() && jack.port == old(jack.port) - ps
    ensures CountsBut(gs, g, jack, ps) && forall p <- ps :: p in due && due[p] == |Holders(Rest(gs, g, jack), p)|
  {
    hide Graph.Valid, Holders, Owed, Released, OwnedBy;
    CutClient(g, c, jack, ps, due);
    forall h, p | h in gs && p in h.port && p !in ps
      ensures !p.destroyed && p.refcount == |Holders(Rest(gs, g, jack), p)| + Entry(g, p) + Entry(jack, p)
    {
      assert p in old(h.port);
    }
  }

  /** A client goes with its ports, each of which may first go through the JACK graph's callback. */
  method RemoveClient(ghost gs: set<Graph>, g: Graph, c: nat, jack: Graph?)
    requires g in gs && g.Valid() && Conserved(gs) && (jack != null ==> jack in gs && jack != g && jack.Valid())
    requires c in g.client
    modifies g, OwnedBy(g.port, {c})`refcount, OwnedBy(g.port, {c})`destroyed
    modifies if jack == null then {} else {jack}
    ensures g.Valid() && (jack != null ==> jack.Valid()) && Conserved(gs) && c !in g.client
    ensures g.port == old(g.port) - OwnedBy(old(g.port), {c})
    ensures forall p <- old(g.port) :: p.destroyed <==> Holders(gs, p) == {}
  {
    hide Graph.Valid, Holders, Conserved, Owed, Released, Counts, CountsBut, OwnedBy, Rest, Entry, HeldBy;
    ghost var ps := OwnedBy(g.port, {c});
    ghost var due := map p | p in g.port :: |Holders(Rest(gs, g, jack), p)|;
    OwnedArePorts(g.port, {c});
    AllOwed(gs, g, jack, due);
    ApartBoth(gs, g, jack, ps);
    ReleaseClient(gs, g, c, jack, ps, due);
    AllReleased(gs, g, jack, ps, due);
    ApartBoth(gs, g, jack, ps);
    AllAlive(gs, g);
  }

  /** What is in a graph is alive. */
  lemma AllAlive(gs: set<Graph>, g: Graph)
    requires Conserved(gs) && g in gs
    ensures forall p <- g.port :: !p.destroyed && g in Holders(gs, p)
  {
    forall p <- g.port
      ensures !p.destroyed && g in Holders(gs, p)
    {
      assert Counts(gs, p);
    }
  }

  /** What happens to the graph itself: exactly `ps` go. */
  method ForgetHidden(g: Graph, ghost ps: set<SharedPort>, ghost due: map<SharedPort, nat>)
    requires g.Valid() && g.hasPath && Owed(g.port.Keys, due, {})
    requires ps == OwnedBy(g.port, HiddenClients(g.client))
    modifies g, g.port.Keys`refcount, g.port.Keys`destroyed
    ensures g.Valid() && g.port == old(g.port) - ps && g.port.Keys == old(g.port).Keys - ps
    ensures Released(ps, due) && Owed(g.port.Keys, due, {})
  {
    hide Graph.Valid, Owed, Released, Prune, HiddenClients, HiddenLinks, Sound, Seen, OwnedBy;
    ghost var t := g.State();
    PrunedMaps(t, HiddenLinks(t.connection), ps, HiddenClients(t.client));
    g.RemoveHiddenObjects(due);
  }

  /** Forgetting what is hidden lets go of the ports of the hidden clients. */
  method RemoveHiddenObjects(ghost gs: set<Graph>, g: Graph)
    requires g in gs && g.Valid() && Conserved(gs) && g.hasPath
    modifies g, g.port.Keys`refcount, g.port.Keys`destroyed
    ensures g.Valid() && Conserved(gs)
    ensures g.port == old(g.port) - OwnedBy(old(g.port), HiddenClients(old(g.client)))
    ensures forall p <- old(g.port) :: p.destroyed <==> Holders(gs, p) == {}
  {
    hide Graph.Valid, Holders, Conserved, Owed, Released, Counts, HiddenClients, OwnedBy;
    ghost var all, ps := g.port.Keys, OwnedBy(g.port, HiddenClients(g.client));
    ghost var due := map p | p in g.port :: |Holders(Rest(gs, g, null), p)|;
    OwnedArePorts(g.port, HiddenClients(g.client));
    AllOwed(gs, g, null, due);
    ApartBoth(gs, g, null, all);
    ForgetHidden(g, ps, due);
    AllReleased(gs, g, null, ps, due);
    StillOwed(gs, g, due);
    assert all == ps + g.port.Keys;
    ApartBoth(gs, g, null, all);
    AllAlive(gs, g);
  }

  /** What is left in the graph counts it, too. */
  lemma StillOwed(gs: set<Graph>, g: Graph, due: map<SharedPort, nat>)
    requires g in gs && Owed(g.port.Keys, due, {})
    requires forall p <- g.port :: p in due ==> due[p] == |Holders(Rest(gs, g, null), p)|
    ensures forall p <- g.port :: Counts(gs, p)
  {
    hide Holders;
    forall p <- g.port
      ensures Counts(gs, p)
    {
      assert p in g.port.Keys;
      CountApartBoth(gs, g, null, p);
    }
  }

  /** What has left the graph counts the graphs that still hold it. */
  lemma AllReleased(gs: set<Graph>, g: Graph, jack: Graph?, ps: set<SharedPort>, due: map<SharedPort, nat>)
    requires g in gs && (jack != null ==> jack in gs && jack != g) && Released(ps, due)
    requires forall p <- ps :: p in due && due[p] == |Holders(Rest(gs, g, jack), p)| && p !in g.port
    requires jack != null ==> forall p <- ps :: p !in jack.port
    ensures forall p <- ps :: (Counts(gs, p) || p.destroyed) && (p.destroyed <==> Holders(gs, p) == {})
  {
    hide Holders;
    forall p <- ps
      ensures (Counts(gs, p) || p.destroyed) && (p.destroyed <==> Holders(gs, p) == {})
    {
      CountApartBoth(gs, g, jack, p);
    }
  }
}
