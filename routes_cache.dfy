/** The process-local routes cache of the XML published cache: a node id to route dictionary and
    a route to node id dictionary, updated one entry at a time by Store and ClearNode and replaced
    wholesale by Clear. The model is sequential: the two concurrent dictionaries become two maps. */
module RoutesCaching {
  import opened Text

  /** The two dictionaries, as values: routes (node id to route) and nodeIds (route to node id). */
  datatype Tables = Tables(routes: map<int, string>, nodeIds: map<string, int>)

  /** Both dictionaries empty, as the constructor and Clear leave them. */
  const EMPTY := Tables(map[], map[])

  /** What GetRoute answers: the stored route, or null when the node has none. */
  function RouteOf(t: Tables, nodeId: int): Option<string>
  {
    if nodeId in t.routes then Some(t.routes[nodeId]) else None
  }

  /** What GetNodeId answers: the stored node id, or default(int), 0, when the route has none. */
  function NodeIdOf(t: Tables, route: string): int
  {
    if route in t.nodeIds then t.nodeIds[route] else 0
  }

  /** The effect of Store(nodeId, route): both lookups now answer each other, and every other key
      of either dictionary keeps its entry, including a stale one that still names nodeId or route. */
  function Stored(t: Tables, nodeId: int, route: string): (u: Tables)
    ensures RouteOf(u, nodeId) == Some(route) && NodeIdOf(u, route) == nodeId
    ensures u.routes.Keys == t.routes.Keys + {nodeId} && u.nodeIds.Keys == t.nodeIds.Keys + {route}
    ensures forall n :: n != nodeId ==> RouteOf(u, n) == RouteOf(t, n)
    ensures forall r :: r != route ==> NodeIdOf(u, r) == NodeIdOf(t, r)
  {
    Tables(t.routes[nodeId := route], t.nodeIds[route := nodeId])
  }

  /** The effect of ClearNode(nodeId): nothing when the node has no route; otherwise the node loses
      its route and its route loses its reverse entry (whichever node that entry names), and every
      other key keeps its entry. */
  function NodeCleared(t: Tables, nodeId: int): (u: Tables)
    ensures nodeId !in t.routes ==> u == t
    ensures RouteOf(u, nodeId) == None
    ensures nodeId in t.routes ==> t.routes[nodeId] !in u.nodeIds && NodeIdOf(u, t.routes[nodeId]) == 0
    ensures u.routes.Keys == t.routes.Keys - {nodeId}
    ensures forall n :: n != nodeId ==> RouteOf(u, n) == RouteOf(t, n)
    ensures forall r :: (nodeId !in t.routes || r != t.routes[nodeId]) ==>
      (r in u.nodeIds <==> r in t.nodeIds) && NodeIdOf(u, r) == NodeIdOf(t, r)
  {
    if nodeId !in t.routes then t
    else
      var key := t.routes[nodeId];
      Tables(t.routes - {nodeId}, t.nodeIds - {key})
  }

  /** The dictionaries of a two-way index: each one is exactly the inverse of the other. */
  ghost predicate IsInversePair(t: Tables)
  {
    && (forall n :: n in t.routes ==> t.routes[n] in t.nodeIds && t.nodeIds[t.routes[n]] == n)
    && (forall r :: r in t.nodeIds ==> t.nodeIds[r] in t.routes && t.routes[t.nodeIds[r]] == r)
  }

  class RoutesCache {
    var routes: map<int, string>
    var nodeIds: map<string, int>

    /** The state of both dictionaries. */
    function Contents(): Tables
      reads this
    {
      Tables(routes, nodeIds)
    }

    /** A new cache starts cleared. */
    constructor ()
      ensures Contents() == EMPTY
    {
      new;
      Clear();
    }

    method Store(nodeId: int, route: string)
      modifies this
      ensures Contents() == Stored(old(Contents()), nodeId, route)
    {
      routes := routes[nodeId := route];
      nodeIds := nodeIds[route := nodeId];
    }

    method GetRoute(nodeId: int) returns (route: Option<string>)
      ensures route.Some? <==> nodeId in routes
      ensures route.Some? ==> route.value == routes[nodeId]
      ensures route == RouteOf(Contents(), nodeId)
    {
      if nodeId in routes {
        route := Some(routes[nodeId]);
      } else {
        route := None;
      }
    }

    method GetNodeId(route: string) returns (nodeId: int)
      ensures route in nodeIds ==> nodeId == nodeIds[route]
      ensures route !in nodeIds ==> nodeId == 0
      ensures nodeId == NodeIdOf(Contents(), route)
    {
      nodeId := 0;
      if route in nodeIds {
        nodeId := nodeIds[route];
      }
    }

    method ClearNode(nodeId: int)
      modifies this
      ensures Contents() == NodeCleared(old(Contents()), nodeId)
    {
      if nodeId !in routes { return; }
      // the source looks the route up a second time, which cannot fail once the key is known
      var key := routes[nodeId];
      nodeIds := nodeIds - {key};
      routes := routes - {nodeId};
    }

    method Clear()
      modifies this
      ensures Contents() == EMPTY
    {
      routes := map[];
      nodeIds := map[];
    }
  }

  /** Storing the same pair twice leaves the state storing it once leaves. */
  lemma StoreIsIdempotent(t: Tables, nodeId: int, route: string)
    ensures Stored(Stored(t, nodeId, route), nodeId, route) == Stored(t, nodeId, route)
  {
  }

  /** Store does not evict the node's previous route from the reverse dictionary: after moving a node
      from r0 to another route, r0 still resolves to the node although the node's route is no longer r0. */
  lemma StoreKeepsStaleReverseEntry(t: Tables, nodeId: int, r0: string, route: string)
    requires RouteOf(t, nodeId) == Some(r0) && r0 in t.nodeIds && t.nodeIds[r0] == nodeId
    requires route != r0
    ensures var u := Stored(t, nodeId, route);
      r0 in u.nodeIds && NodeIdOf(u, r0) == nodeId && RouteOf(u, nodeId) == Some(route)
  {
  }

  /** Likewise a route taken over by another node keeps that route under its old node. */
  lemma StoreKeepsStaleForwardEntry(t: Tables, n0: int, nodeId: int, route: string)
    requires RouteOf(t, n0) == Some(route) && n0 != nodeId
    ensures var u := Stored(t, nodeId, route);
      RouteOf(u, n0) == Some(route) && NodeIdOf(u, route) == nodeId
  {
  }

  /** Consequently Store does not keep the two dictionaries inverse to each other: two stores for one
      node, starting from an empty cache, leave a reverse entry that names the node for a route it lost. */
  lemma StoreBreaksInversePair()
    ensures IsInversePair(Stored(EMPTY, 1, "/a"))
    ensures !IsInversePair(Stored(Stored(EMPTY, 1, "/a"), 1, "/b"))
  {
    var u := Stored(Stored(EMPTY, 1, "/a"), 1, "/b");
    assert "/a" in u.nodeIds && u.nodeIds["/a"] == 1 && u.routes[1] == "/b";
  }

  /** Store keeps the dictionaries inverse when neither the node nor the route was cached before. */
  lemma StoreOfFreshPairKeepsInversePair(t: Tables, nodeId: int, route: string)
    requires IsInversePair(t) && nodeId !in t.routes && route !in t.nodeIds
    ensures IsInversePair(Stored(t, nodeId, route))
  {
  }

  /** ClearNode keeps the dictionaries inverse when they were. */
  lemma ClearNodeKeepsInversePair(t: Tables, nodeId: int)
    requires IsInversePair(t)
    ensures IsInversePair(NodeCleared(t, nodeId))
  {
  }

  /** ClearNode removes the reverse entry of the node's route even when that entry already names
      another node, which then keeps its route but can no longer be found from it. */
  lemma ClearNodeDropsAnotherNodesReverseEntry(t: Tables, nodeId: int, other: int, route: string)
    requires RouteOf(t, nodeId) == Some(route) && RouteOf(t, other) == Some(route)
    requires other != nodeId && route in t.nodeIds && t.nodeIds[route] == other
    ensures var u := NodeCleared(t, nodeId);
      RouteOf(u, other) == Some(route) && route !in u.nodeIds && NodeIdOf(u, route) == 0
  {
  }

  /** A cleared cache answers every lookup with a miss, whatever it held before. */
  lemma EmptyCacheMisses(nodeId: int, route: string)
    ensures RouteOf(EMPTY, nodeId) == None && NodeIdOf(EMPTY, route) == 0
  {
  }

  /** One call that changes a RoutesCache. */
  datatype Operation = StoreOp(nodeId: int, route: string) | ClearNodeOp(node: int) | ClearOp

  function Apply(t: Tables, op: Operation): Tables
  {
    match op
    case StoreOp(n, r) => Stored(t, n, r)
    case ClearNodeOp(n) => NodeCleared(t, n)
    case ClearOp => EMPTY
  }

  /** The state a new cache reaches after the calls of history, in order. */
  function Replay(history: seq<Operation>): Tables
  {
    if history == [] then EMPTY
    else Apply(Replay(history[..|history| - 1]), history[|history| - 1])
  }

  /** Every entry of either dictionary is a pair some call of history stored. */
  ghost predicate EntriesWereStored(t: Tables, history: seq<Operation>)
  {
    && (forall n :: n in t.routes ==> StoreOp(n, t.routes[n]) in history)
    && (forall r :: r in t.nodeIds ==> StoreOp(t.nodeIds[r], r) in history)
  }

  /** Whatever the calls, the cache never answers with a pair that was not stored: a stale answer is
      always one that some Store call made (and possibly a later call superseded). */
  lemma {:induction false} LookupsAnswerStoredPairs(history: seq<Operation>)
    ensures EntriesWereStored(Replay(history), history)
  {
    if history != [] {
      var earlier := history[..|history| - 1];
      var last := history[|history| - 1];
      assert history == earlier + [last];
      LookupsAnswerStoredPairs(earlier);
    }
  }
}
