/** Expansion of search hits by a breadth-first walk of the tenant's edges, in memory. */
module GraphExpansion {
  import opened Common
  import opened GraphModel
  import opened GraphStore

  datatype Hit = FactHit(id: Id, entity: Option<Id>) | OtherHit(id: Id)

  /** A fact hit also starts from the entity it names. */
  function StartsOf(hit: Hit): set<Id> {
    {hit.id} + if hit.FactHit? && hit.entity.Some? then {hit.entity.value} else {}
  }

  function StartIds(hits: seq<Hit>): set<Id> {
    set h, x | h in hits && x in StartsOf(h) :: x
  }

  lemma StartsSnoc(hits: seq<Hit>, i: nat)
    requires i < |hits|
    ensures StartIds(hits[..i + 1]) == StartIds(hits[..i]) + StartsOf(hits[i])
  {
    TakeOneMore(hits, i);
  }

  /** One way along an edge of the tenant, in either direction. */
  datatype Hop = Hop(rel: RelId, target: Id)

  predicate IsHop(rels: map<RelId, Rel>, tenant: Tenant, x: Id, hop: Hop) {
    && hop.rel in rels && rels[hop.rel].tenant == tenant
    && ((rels[hop.rel].src == x && rels[hop.rel].dst == hop.target)
        || (rels[hop.rel].dst == x && rels[hop.rel].src == hop.target))
  }

  ghost predicate Linked(rels: map<RelId, Rel>, tenant: Tenant, x: Id, y: Id) {
    exists r :: IsHop(rels, tenant, x, Hop(r, y))
  }

  /** Edges of the tenant link their ends both ways. */
  lemma LinkedEitherWay(rels: map<RelId, Rel>, tenant: Tenant, x: Id, y: Id)
    ensures Linked(rels, tenant, x, y) <==>
              exists r :: r in rels && rels[r].tenant == tenant && (rels[r].src, rels[r].dst) in {(x, y), (y, x)}
  {
    if r :| r in rels && rels[r].tenant == tenant && (rels[r].src, rels[r].dst) in {(x, y), (y, x)} {
      assert IsHop(rels, tenant, x, Hop(r, y));
    }
  }

  ghost predicate IsWalk(rels: map<RelId, Rel>, tenant: Tenant, walk: seq<Id>) {
    walk != [] && forall i :: 0 <= i < |walk| - 1 ==> Linked(rels, tenant, walk[i], walk[i + 1])
  }

  /** Some walk of at most `hops` edges leads from a start to `x`. */
  ghost predicate Reachable(rels: map<RelId, Rel>, tenant: Tenant, start: set<Id>, hops: nat, x: Id) {
    exists walk :: LeadsTo(rels, tenant, start, hops, walk, x)
  }

  ghost predicate LeadsTo(rels: map<RelId, Rel>, tenant: Tenant, start: set<Id>, hops: nat, walk: seq<Id>, x: Id) {
    IsWalk(rels, tenant, walk) && walk[0] in start && walk[|walk| - 1] == x && |walk| <= hops + 1
  }

  function Neighbours(rels: map<RelId, Rel>, tenant: Tenant, from: set<Id>): set<Id> {
    (set r | r in rels && rels[r].tenant == tenant && rels[r].src in from :: rels[r].dst)
    + (set r | r in rels && rels[r].tenant == tenant && rels[r].dst in from :: rels[r].src)
  }

  /** Everything at most `hops` hops away from the start. */
  function Within(rels: map<RelId, Rel>, tenant: Tenant, start: set<Id>, hops: nat): set<Id> {
    if hops == 0 then start
    else
      var nearer := Within(rels, tenant, start, hops - 1);
      nearer + Neighbours(rels, tenant, nearer)
  }

  function EdgesAt(rels: map<RelId, Rel>, tenant: Tenant, nodes: set<Id>): set<RelId> {
    set r | r in rels && rels[r].tenant == tenant && (rels[r].src in nodes || rels[r].dst in nodes)
  }

  lemma NeighbourIsLinked(rels: map<RelId, Rel>, tenant: Tenant, from: set<Id>, y: Id)
    ensures y in Neighbours(rels, tenant, from) <==> exists x :: x in from && Linked(rels, tenant, x, y)
  {
    if y in Neighbours(rels, tenant, from) {
      var r :| r in rels && rels[r].tenant == tenant
            && ((rels[r].src in from && rels[r].dst == y) || (rels[r].dst in from && rels[r].src == y));
      var x := if rels[r].src in from && rels[r].dst == y then rels[r].src else rels[r].dst;
      assert IsHop(rels, tenant, x, Hop(r, y));
    }
  }

  /** The layered definition agrees with walks: within `hops` means some walk of at most that many edges. */
  lemma {:induction false} WithinIsReachable(rels: map<RelId, Rel>, tenant: Tenant, start: set<Id>, hops: nat, x: Id)
    ensures x in Within(rels, tenant, start, hops) <==> Reachable(rels, tenant, start, hops, x)
  {
    if x in Within(rels, tenant, start, hops) { var walk := WithinHasWalk(rels, tenant, start, hops, x); }
    if Reachable(rels, tenant, start, hops, x) {
      var walk :| LeadsTo(rels, tenant, start, hops, walk, x);
      WalkStaysWithin(rels, tenant, start, hops, walk, x);
    }
  }

  lemma {:induction false} WithinHasWalk(rels: map<RelId, Rel>, tenant: Tenant, start: set<Id>, hops: nat, x: Id)
      returns (walk: seq<Id>)
    requires x in Within(rels, tenant, start, hops)
    ensures LeadsTo(rels, tenant, start, hops, walk, x)
  {
    if hops == 0 {
      walk := [x];
    } else if x in Within(rels, tenant, start, hops - 1) {
      walk := WithinHasWalk(rels, tenant, start, hops - 1, x);
    } else {
      NeighbourIsLinked(rels, tenant, Within(rels, tenant, start, hops - 1), x);
      var y :| y in Within(rels, tenant, start, hops - 1) && Linked(rels, tenant, y, x);
      var init := WithinHasWalk(rels, tenant, start, hops - 1, y);
      walk := init + [x];
    }
  }

  lemma {:induction false} WalkStaysWithin(rels: map<RelId, Rel>, tenant: Tenant, start: set<Id>, hops: nat,
                                           walk: seq<Id>, x: Id)
    requires LeadsTo(rels, tenant, start, hops, walk, x)
    ensures x in Within(rels, tenant, start, hops)
    decreases hops
  {
    if |walk| > 1 {
      var init, y := walk[..|walk| - 1], walk[|walk| - 2];
      assert LeadsTo(rels, tenant, start, hops - 1, init, y);
      WalkStaysWithin(rels, tenant, start, hops - 1, init, y);
      assert Linked(rels, tenant, walk[|walk| - 2], walk[|walk| - 1]);
      NeighbourIsLinked(rels, tenant, Within(rels, tenant, start, hops - 1), x);
    } else {
      StartIsWithin(rels, tenant, start, hops);
    }
  }

  lemma {:induction false} StartIsWithin(rels: map<RelId, Rel>, tenant: Tenant, start: set<Id>, hops: nat)
    ensures start <= Within(rels, tenant, start, hops)
  {
    if hops > 0 { StartIsWithin(rels, tenant, start, hops - 1); }
  }

  /** No edge leads out of the layer. */
  ghost predicate IsClosed(rels: map<RelId, Rel>, tenant: Tenant, nodes: set<Id>) {
    Neighbours(rels, tenant, nodes) <= nodes
  }

  /** Once a layer adds nothing, no later one does. */
  lemma {:induction false} WithinIsClosed(rels: map<RelId, Rel>, tenant: Tenant, start: set<Id>, near: nat, far: nat)
    requires near <= far && IsClosed(rels, tenant, Within(rels, tenant, start, near))
    ensures Within(rels, tenant, start, far) == Within(rels, tenant, start, near)
  {
    if near < far { WithinIsClosed(rels, tenant, start, near, far - 1); }
  }

  // ---------- the walk ----------

  datatype Entry = Entry(node: Id, depth: nat)

  /** The walk is inside layer `level`: `done` is expanded, and the queue holds the rest of the layer, then the next
      one. */
  ghost predicate Exploring(rels: map<RelId, Rel>, tenant: Tenant, start: set<Id>, level: nat, done: set<Id>,
                            visited: set<Id>, edges: set<RelId>, queue: seq<Entry>)
  {
    && Within(rels, tenant, start, level) <= visited <= Within(rels, tenant, start, level + 1)
    && done <= Within(rels, tenant, start, level)
    && Neighbours(rels, tenant, done) <= visited
    && edges == EdgesAt(rels, tenant, done)
    && (forall i :: 0 <= i < |queue| ==> QueuedWell(rels, tenant, start, level, queue[i]))
    && (forall i, j :: 0 <= i < j < |queue| ==> queue[i].depth <= queue[j].depth)
    && (forall x :: x in visited && x !in done ==> Queued(queue, x))
  }

  ghost predicate QueuedWell(rels: map<RelId, Rel>, tenant: Tenant, start: set<Id>, level: nat, e: Entry) {
    || (e.depth == level && e.node in Within(rels, tenant, start, level))
    || (e.depth == level + 1 && e.node !in Within(rels, tenant, start, level)
        && e.node in Within(rels, tenant, start, level + 1))
  }

  ghost predicate Queued(queue: seq<Entry>, x: Id) {
    exists i :: 0 <= i < |queue| && queue[i].node == x
  }

  /** When the layer is used up, the next one is complete. */
  lemma LayerDone(rels: map<RelId, Rel>, tenant: Tenant, start: set<Id>, level: nat, done: set<Id>,
                  visited: set<Id>, edges: set<RelId>, queue: seq<Entry>)
    requires Exploring(rels, tenant, start, level, done, visited, edges, queue)
    requires queue != [] ==> queue[0].depth == level + 1
    ensures done == Within(rels, tenant, start, level) && visited == Within(rels, tenant, start, level + 1)
    ensures queue != [] ==> Exploring(rels, tenant, start, level + 1, done, visited, edges, queue)
    ensures queue == [] ==> Neighbours(rels, tenant, Within(rels, tenant, start, level)) <= Within(rels, tenant, start,
                                                                                                   level)
  {
    forall i | 0 <= i < |queue|
        ensures queue[i].depth == level + 1 && queue[i].node !in Within(rels, tenant, start, level) {
      assert QueuedWell(rels, tenant, start, level, queue[i]) && (i > 0 ==> queue[0].depth <= queue[i].depth);
    }
    forall x | x in Within(rels, tenant, start, level) ensures x in done {
      assert x in done || Queued(queue, x);
    }
    forall x | x in visited && queue == [] ensures x in done {
      assert x in done || Queued(queue, x);
    }
    forall i | 0 <= i < |queue| ensures QueuedWell(rels, tenant, start, level + 1, queue[i]) {
      assert QueuedWell(rels, tenant, start, level, queue[i]);
    }
  }

  /** Exactly the ids that were not visited before, one level deeper. */
  ghost predicate QueuesNew(added: seq<Entry>, depth: nat, visited: set<Id>, visited': set<Id>) {
    && (forall i :: 0 <= i < |added| ==>
        added[i].depth == depth + 1 && added[i].node in visited' && added[i].node !in visited)
    && (forall y :: y in visited' && y !in visited ==> Queued(added, y))
  }

  lemma QueuesNewSnoc(added: seq<Entry>, depth: nat, visited: set<Id>, visited': set<Id>, x: Id)
    requires QueuesNew(added, depth, visited, visited') && visited <= visited' && x !in visited'
    ensures QueuesNew(added + [Entry(x, depth + 1)], depth, visited, visited' + {x})
  {
    QueuedSnoc(added, x, depth + 1);
  }

  /** What expanding one node adds; the queue has lost its head and gained `added`. */
  ghost predicate Expanded(rels: map<RelId, Rel>, tenant: Tenant, x: Id, depth: nat, visited: set<Id>,
                           edges: set<RelId>,
                           added: seq<Entry>, visited': set<Id>, edges': set<RelId>)
  {
    && visited' == visited + Neighbours(rels, tenant, {x})
    && edges' == edges + EdgesAt(rels, tenant, {x})
    && QueuesNew(added, depth, visited, visited')
  }

  lemma QueueStaysLayered(rels: map<RelId, Rel>, tenant: Tenant, start: set<Id>, level: nat, rest: seq<Entry>,
                          added: seq<Entry>, visited: set<Id>, visited': set<Id>)
    requires forall i :: 0 <= i < |rest| ==> QueuedWell(rels, tenant, start, level, rest[i])
    requires forall i, j :: 0 <= i < j < |rest| ==> rest[i].depth <= rest[j].depth
    requires QueuesNew(added, level, visited, visited')
    requires Within(rels, tenant, start, level) <= visited && visited' <= Within(rels, tenant, start, level + 1)
    ensures forall i :: 0 <= i < |rest + added| ==> QueuedWell(rels, tenant, start, level, (rest + added)[i])
    ensures forall i, j :: 0 <= i < j < |rest + added| ==> (rest + added)[i].depth <= (rest + added)[j].depth
  {
    forall i | 0 <= i < |added|
        ensures QueuedWell(rels, tenant, start, level, added[i]) && added[i].depth == level + 1 {}
    forall i | 0 <= i < |rest| ensures rest[i].depth <= level + 1 {
      assert QueuedWell(rels, tenant, start, level, rest[i]);
    }
  }

  lemma ExpandingOne(rels: map<RelId, Rel>, tenant: Tenant, start: set<Id>, level: nat, done: set<Id>,
                     visited: set<Id>, edges: set<RelId>, queue: seq<Entry>, added: seq<Entry>, visited': set<Id>,
                         edges': set<RelId>)
    requires Exploring(rels, tenant, start, level, done, visited, edges, queue)
    requires queue != [] && queue[0].depth == level
    requires Expanded(rels, tenant, queue[0].node, level, visited, edges, added, visited', edges')
    ensures Exploring(rels, tenant, start, level, done + {queue[0].node}, visited', edges', queue[1..] + added)
  {
    var x := queue[0].node;
    assert QueuedWell(rels, tenant, start, level, queue[0]);
    NeighboursGrow(rels, tenant, {x}, Within(rels, tenant, start, level));
    QueueStaysLayered(rels, tenant, start, level, queue[1..], added, visited, visited');
    forall y | y in visited' && y !in done + {x} ensures Queued(queue[1..] + added, y) {
      if y in visited {
        QueuedBehind(queue, y);
      }
      QueuedInConcat(queue[1..], added, y);
    }
  }

  lemma QueuedBehind(queue: seq<Entry>, y: Id)
    requires queue != [] && Queued(queue, y) && queue[0].node != y
    ensures Queued(queue[1..], y)
  {
    var i :| 0 <= i < |queue| && queue[i].node == y;
    assert queue[1..][i - 1] == queue[i];
  }

  lemma QueuedInConcat(a: seq<Entry>, b: seq<Entry>, y: Id)
    requires Queued(a, y) || Queued(b, y)
    ensures Queued(a + b, y)
  {
    if Queued(a, y) {
      var i :| 0 <= i < |a| && a[i].node == y;
      assert (a + b)[i] == a[i];
    } else {
      var i :| 0 <= i < |b| && b[i].node == y;
      assert (a + b)[|a| + i] == b[i];
    }
  }

  lemma NeighboursGrow(rels: map<RelId, Rel>, tenant: Tenant, few: set<Id>, many: set<Id>)
    requires few <= many
    ensures Neighbours(rels, tenant, few) <= Neighbours(rels, tenant, many)
  {}

  /** Ids the walk can ever meet. */
  function Universe(rels: map<RelId, Rel>, start: set<Id>): set<Id> {
    start + (set r | r in rels :: rels[r].src) + (set r | r in rels :: rels[r].dst)
  }

  predicate Found(g: Graph, tenant: Tenant, x: Id) {
    (x in g.nodes && g.nodes[x].tenant == tenant) || (x in g.facts && g.facts[x].tenant == tenant)
  }

  function DepthReached(depth: int): nat {
    if depth < 0 then 0 else depth
  }

  /** What the walk to the given depth visits. */
  ghost predicate WalkedTo(rels: map<RelId, Rel>, tenant: Tenant, start: set<Id>, depth: int, visited: set<Id>,
                           edges: set<RelId>) {
    && visited == Within(rels, tenant, start, DepthReached(depth))
    && edges == if depth <= 0 then {} else EdgesAt(rels, tenant, Within(rels, tenant, start, depth - 1))
  }

  class GraphExpansionService {
    const store: Neo4jClient

    constructor (store: Neo4jClient)
      ensures this.store == store
    {
      this.store := store;
    }

    static method CollectStarts(hits: seq<Hit>) returns (starts: set<Id>)
      ensures starts == StartIds(hits)
    {
      starts := {};
      var i := 0;
      while i < |hits|
        invariant 0 <= i <= |hits|
        invariant starts == StartIds(hits[..i])
      {
        StartsSnoc(hits, i);
        if hits[i].FactHit? {
          if hits[i].entity.Some? {
            starts := starts + {hits[i].entity.value};
          }
        }
        starts := starts + {hits[i].id};
        i := i + 1;
      }
      TakeAll(hits);
    }

    /** Every hop of the tenant, listed under both endpoints; edges that come twice are listed twice. */
    method BuildAdjacency(tenant: Tenant) returns (adjacency: map<Id, seq<Hop>>)
      ensures forall x, hop :: hop in HopsOf(adjacency, x) <==> IsHop(store.rels, tenant, x, hop)
    {
      var listed := store.ListRelationships(tenant);
      var all := Enumerate(store.rels.Keys);
      var combined := listed + all;
      adjacency := map[];
      var i := 0;
      while i < |combined|
        invariant 0 <= i <= |combined|
        invariant forall x, hop ::
                    hop in HopsOf(adjacency, x) <==> IsHop(store.rels, tenant, x, hop) && hop.rel in combined[..i]
      {
        TakeOneMore(combined, i);
        var r := combined[i];
        assert r in listed || r in all;
        var rel := store.rels[r];
        if rel.tenant == tenant {
          ghost var before := adjacency;
          adjacency := adjacency[rel.src := HopsOf(adjacency, rel.src) + [Hop(r, rel.dst)]];
          adjacency := adjacency[rel.dst := HopsOf(adjacency, rel.dst) + [Hop(r, rel.src)]];
          forall x, hop ensures hop in HopsOf(adjacency, x)
              <==> hop in HopsOf(before, x) || (hop.rel == r && IsHop(store.rels, tenant, x, hop)) {}
        }
        i := i + 1;
      }
      TakeAll(combined);
      forall x, hop | IsHop(store.rels, tenant, x, hop) ensures hop.rel in combined {
        assert hop.rel in all;
      }
    }

    /** Marks the hops of one node and queues the ends not seen before. */
    method Visit(depth: nat, hops: seq<Hop>, visited: set<Id>, edges: set<RelId>, queue: seq<Entry>)
        returns (visited': set<Id>, edges': set<RelId>, queue': seq<Entry>, ghost added: seq<Entry>)
      ensures visited' == visited + Ends(hops) && edges' == edges + Marks(hops)
      ensures queue' == queue + added && QueuesNew(added, depth, visited, visited')
      ensures visited' == visited ==> added == []
    {
      visited', edges', queue', added := visited, edges, queue, [];
      var i := 0;
      while i < |hops|
        invariant 0 <= i <= |hops|
        invariant visited' == visited + Ends(hops[..i])
        invariant edges' == edges + Marks(hops[..i])
        invariant queue' == queue + added && QueuesNew(added, depth, visited, visited')
      {
        var Hop(rel, target) := hops[i];
        HopsSnoc(hops, i);
        if target !in visited' {
          QueuesNewSnoc(added, depth, visited, visited', target);
          visited' := visited' + {target};
          queue' := queue' + [Entry(target, depth + 1)];
          added := added + [Entry(target, depth + 1)];
        }
        edges' := edges' + {rel};
        i := i + 1;
      }
      TakeAll(hops);
      assert added != [] ==> added[0].node in visited' && added[0].node !in visited;
    }

    /** The breadth-first loop: it ends, and visits exactly what lies within the depth. */
    method Walk(tenant: Tenant, starts: set<Id>, depth: int) returns (visited: set<Id>, edges: set<RelId>)
      ensures WalkedTo(store.rels, tenant, starts, depth, visited, edges)
    {
      var adjacency := BuildAdjacency(tenant);
      var order := Enumerate(starts);
      var queue: seq<Entry> := seq(|order|, i requires 0 <= i < |order| => Entry(order[i], 0));
      visited, edges := starts, {};
      ghost var rels := store.rels;
      ghost var level, done: set<Id> := 0, {};
      StartsExploring(rels, tenant, starts, order, queue);
      while queue != []
        invariant OnTheWay(rels, tenant, starts, depth, level, done, visited, edges, queue)
        decreases Universe(rels, starts) - visited, |queue|
      {
        var Entry(x, d) := queue[0];
        if d >= depth {
          TooDeep(rels, tenant, starts, depth, level, done, visited, edges, queue);
          queue := queue[1..];
          continue;
        }
        level := RightLayer(rels, tenant, starts, depth, level, done, visited, edges, queue);
        ghost var before, seen := queue, visited;
        ghost var marked := edges;
        ghost var added;
        visited, edges, queue, added := Visit(d, HopsOf(adjacency, x), visited, edges, queue[1..]);
        OneVisited(rels, tenant, starts, level, done, seen, marked, before, HopsOf(adjacency, x), added, visited,
                   edges);
        VisitShrinks(rels, tenant, starts, x, seen, visited);
        done := done + {x};
      }
      QueueIsEmpty(rels, tenant, starts, depth, level, done, visited, edges);
    }

    /** The nodes and edges around the hits; an empty start gives nothing. */
    method Expand(tenant: Tenant, hits: seq<Hit>, depth: int) returns (nodes: set<Id>, edges: set<RelId>)
      ensures forall x :: x in nodes <==>
                Reachable(store.rels, tenant, StartIds(hits), DepthReached(depth), x) && Found(store.State(), tenant, x)
      ensures forall r :: r in edges <==>
                && depth > 0 && r in store.rels && store.rels[r].tenant == tenant
                && (Reachable(store.rels, tenant, StartIds(hits), depth - 1, store.rels[r].src)
                    || Reachable(store.rels, tenant, StartIds(hits), depth - 1, store.rels[r].dst))
    {
      var starts := CollectStarts(hits);
      if starts == {} {
        forall hops: nat, x ensures !Reachable(store.rels, tenant, {}, hops, x) {}
        return {}, {};
      }
      var visited;
      visited, edges := Walk(tenant, starts, depth);
      nodes := set x | x in visited && Found(Graph(store.nodes, store.rels, store.facts), tenant, x);
      forall hops: nat, x
        ensures x in Within(store.rels, tenant, starts, hops) <==> Reachable(store.rels, tenant, starts, hops, x)
      {
        WithinIsReachable(store.rels, tenant, starts, hops, x);
      }
    }
  }

  /** Either inside a layer short of the depth, or everything is visited and the queue only holds leftovers. */
  ghost predicate OnTheWay(rels: map<RelId, Rel>, tenant: Tenant, start: set<Id>, depth: int, level: nat, done: set<Id>,
                           visited: set<Id>, edges: set<RelId>, queue: seq<Entry>)
  {
    || (Exploring(rels, tenant, start, level, done, visited, edges, queue) && level < depth)
    || (WalkedTo(rels, tenant, start, depth, visited, edges) && AllDeep(queue, depth))
  }

  lemma LastLayer(rels: map<RelId, Rel>, tenant: Tenant, start: set<Id>, depth: int, level: nat, done: set<Id>,
                  visited: set<Id>, edges: set<RelId>, queue: seq<Entry>)
    requires Exploring(rels, tenant, start, level, done, visited, edges, queue) && level < depth
    requires queue != [] && queue[0].depth >= depth
    ensures WalkedTo(rels, tenant, start, depth, visited, edges) && AllDeep(queue, depth)
  {
    assert QueuedWell(rels, tenant, start, level, queue[0]);
    assert level == depth - 1;
    LayerDone(rels, tenant, start, level, done, visited, edges, queue);
    assert done == Within(rels, tenant, start, depth - 1);
  }

  lemma TooDeep(rels: map<RelId, Rel>, tenant: Tenant, start: set<Id>, depth: int, level: nat, done: set<Id>,
                visited: set<Id>, edges: set<RelId>, queue: seq<Entry>)
    requires OnTheWay(rels, tenant, start, depth, level, done, visited, edges, queue)
    requires queue != [] && queue[0].depth >= depth
    ensures WalkedTo(rels, tenant, start, depth, visited, edges) && AllDeep(queue[1..], depth)
  {
    if Exploring(rels, tenant, start, level, done, visited, edges, queue) && level < depth {
      LastLayer(rels, tenant, start, depth, level, done, visited, edges, queue);
    }
  }

  lemma RightLayer(rels: map<RelId, Rel>, tenant: Tenant, start: set<Id>, depth: int, level: nat, done: set<Id>,
                   visited: set<Id>, edges: set<RelId>, queue: seq<Entry>) returns (level': nat)
    requires OnTheWay(rels, tenant, start, depth, level, done, visited, edges, queue)
    requires queue != [] && queue[0].depth < depth
    ensures Exploring(rels, tenant, start, level', done, visited, edges, queue) && level' == queue[0].depth
  {
    assert !AllDeep(queue, depth);
    assert QueuedWell(rels, tenant, start, level, queue[0]);
    level' := queue[0].depth;
    if level' != level {
      LayerDone(rels, tenant, start, level, done, visited, edges, queue);
    }
  }

  lemma QueueIsEmpty(rels: map<RelId, Rel>, tenant: Tenant, start: set<Id>, depth: int, level: nat, done: set<Id>,
                     visited: set<Id>, edges: set<RelId>)
    requires OnTheWay(rels, tenant, start, depth, level, done, visited, edges, [])
    ensures WalkedTo(rels, tenant, start, depth, visited, edges)
  {
    if Exploring(rels, tenant, start, level, done, visited, edges, []) && level < depth {
      NoLayerLeft(rels, tenant, start, depth, level, done, visited, edges);
    }
  }

  lemma NoLayerLeft(rels: map<RelId, Rel>, tenant: Tenant, start: set<Id>, depth: int, level: nat, done: set<Id>,
                    visited: set<Id>, edges: set<RelId>)
    requires Exploring(rels, tenant, start, level, done, visited, edges, []) && level < depth
    ensures WalkedTo(rels, tenant, start, depth, visited, edges)
  {
    LayerDone(rels, tenant, start, level, done, visited, edges, []);
    ClosedIsWalked(rels, tenant, start, depth, level, visited, edges);
  }

  lemma ClosedIsWalked(rels: map<RelId, Rel>, tenant: Tenant, start: set<Id>, depth: int, level: nat, visited: set<Id>,
                       edges: set<RelId>)
    requires level < depth && IsClosed(rels, tenant, Within(rels, tenant, start, level))
    requires visited == Within(rels, tenant, start, level + 1)
    requires edges == EdgesAt(rels, tenant, Within(rels, tenant, start, level))
    ensures WalkedTo(rels, tenant, start, depth, visited, edges)
  {
    NothingBeyond(rels, tenant, start, level, level, level + 1);
    NothingBeyond(rels, tenant, start, level, depth - 1, depth);
    var near := Within(rels, tenant, start, level);
    IsWalked(rels, tenant, start, depth, near, visited, edges);
  }

  lemma IsWalked(rels: map<RelId, Rel>, tenant: Tenant, start: set<Id>, depth: int, near: set<Id>, visited: set<Id>,
                 edges: set<RelId>)
    requires depth > 0 && visited == near && near == Within(rels, tenant, start, depth)
    requires near == Within(rels, tenant, start, depth - 1) && edges == EdgesAt(rels, tenant, near)
    ensures WalkedTo(rels, tenant, start, depth, visited, edges)
  {}

  lemma NothingBeyond(rels: map<RelId, Rel>, tenant: Tenant, start: set<Id>, level: nat, last: nat, depth: nat)
    requires level <= last < depth && IsClosed(rels, tenant, Within(rels, tenant, start, level))
    ensures Within(rels, tenant, start, last) == Within(rels, tenant, start, level)
    ensures Within(rels, tenant, start, depth) == Within(rels, tenant, start, level)
  {
    WithinIsClosed(rels, tenant, start, level, last);
    WithinIsClosed(rels, tenant, start, level, depth);
  }

  ghost predicate AllDeep(queue: seq<Entry>, depth: int) {
    forall i :: 0 <= i < |queue| ==> queue[i].depth >= depth
  }

  lemma OneVisited(rels: map<RelId, Rel>, tenant: Tenant, start: set<Id>, level: nat, done: set<Id>, visited: set<Id>,
                   edges: set<RelId>, queue: seq<Entry>, hops: seq<Hop>, added: seq<Entry>, visited': set<Id>,
                       edges': set<RelId>)
    requires Exploring(rels, tenant, start, level, done, visited, edges, queue) && queue != []
             && queue[0].depth == level
    requires forall hop :: hop in hops <==> IsHop(rels, tenant, queue[0].node, hop)
    requires visited' == visited + Ends(hops) && edges' == edges + Marks(hops)
             && QueuesNew(added, level, visited, visited')
    ensures Exploring(rels, tenant, start, level, done + {queue[0].node}, visited', edges', queue[1..] + added)
    ensures visited' == visited + Neighbours(rels, tenant, {queue[0].node})
  {
    HopsAreNeighbours(rels, tenant, queue[0].node, hops);
    ExpandingOne(rels, tenant, start, level, done, visited, edges, queue, added, visited', edges');
  }

  /** Whatever a visit adds was known and not visited before, so the walk comes to an end. */
  lemma VisitShrinks(rels: map<RelId, Rel>, tenant: Tenant, start: set<Id>, x: Id, visited: set<Id>, visited': set<Id>)
    requires visited' == visited + Neighbours(rels, tenant, {x})
    ensures var left, left' := Universe(rels, start) - visited, Universe(rels, start) - visited';
            if visited' == visited then left' == left else left' < left
  {
    if visited' != visited {
      var y :| y in visited' && y !in visited;
      assert y in Universe(rels, start);
    }
  }

  lemma StartsExploring(rels: map<RelId, Rel>, tenant: Tenant, starts: set<Id>, order: seq<Id>, queue: seq<Entry>)
    requires Enumerates(order, starts) && |queue| == |order|
    requires forall i :: 0 <= i < |queue| ==> queue[i] == Entry(order[i], 0)
    ensures Exploring(rels, tenant, starts, 0, {}, starts, {}, queue)
  {
    forall x | x in starts ensures Queued(queue, x) {
      assert x in order;
      var i :| 0 <= i < |order| && order[i] == x;
      assert queue[i].node == x;
    }
  }

  function HopsOf(adjacency: map<Id, seq<Hop>>, x: Id): seq<Hop> {
    if x in adjacency then adjacency[x] else []
  }

  function Ends(hops: seq<Hop>): set<Id> {
    set hop | hop in hops :: hop.target
  }

  function Marks(hops: seq<Hop>): set<RelId> {
    set hop | hop in hops :: hop.rel
  }

  lemma HopsSnoc(hops: seq<Hop>, i: nat)
    requires i < |hops|
    ensures Ends(hops[..i + 1]) == Ends(hops[..i]) + {hops[i].target}
    ensures Marks(hops[..i + 1]) == Marks(hops[..i]) + {hops[i].rel}
  {
    TakeOneMore(hops, i);
  }

  lemma QueuedSnoc(queue: seq<Entry>, x: Id, depth: nat)
    ensures forall y :: Queued(queue + [Entry(x, depth)], y) <==> Queued(queue, y) || y == x
  {
    var longer := queue + [Entry(x, depth)];
    assert longer[|queue|].node == x;
    forall y | Queued(queue, y) ensures Queued(longer, y) {
      var i :| 0 <= i < |queue| && queue[i].node == y;
      assert longer[i].node == y;
    }
  }

  lemma HopsAreNeighbours(rels: map<RelId, Rel>, tenant: Tenant, x: Id, hops: seq<Hop>)
    requires forall hop :: hop in hops <==> IsHop(rels, tenant, x, hop)
    ensures Ends(hops) == Neighbours(rels, tenant, {x})
    ensures Marks(hops) == EdgesAt(rels, tenant, {x})
  {
    forall y | y in Neighbours(rels, tenant, {x}) ensures y in Ends(hops) {
      NeighbourIsLinked(rels, tenant, {x}, y);
      var r :| IsHop(rels, tenant, x, Hop(r, y));
      assert Hop(r, y) in hops;
    }
    forall r | r in EdgesAt(rels, tenant, {x}) ensures r in Marks(hops) {
      var hop := Hop(r, if rels[r].src == x then rels[r].dst else rels[r].src);
      assert IsHop(rels, tenant, x, hop) && hop in hops;
    }
  }
}
