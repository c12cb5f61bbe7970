/** The in-memory graph store: three maps updated in place by upserts, reassignments and merges. */
module GraphStore {
  import opened Common
  import opened GraphModel

  // ---------- what each write does to the whole graph ----------

  function WithNode(g: Graph, node: Node): Graph {
    g.(nodes := g.nodes[node.id := node])
  }

  function WithRel(g: Graph, id: Id, rel: Rel): Graph {
    g.(rels := g.rels[Plain(id) := rel])
  }

  function WithFact(g: Graph, fact: Fact): Graph {
    g.(facts := g.facts[fact.id := fact],
       rels := g.rels[FactEdge(fact.entity, fact.id) := FactRel(fact, fact.entity)]
                     [SourceEdge(fact.id, fact.source) := SourceRel(fact)])
  }

  function Redirect(x: Id, from: Id, to: Id): Id {
    if x == from then to else x
  }

  predicate MovesWith(fact: Fact, tenant: Tenant, entity: Id) {
    fact.tenant == tenant && fact.entity == entity
  }

  function MovedFacts(facts: map<Id, Fact>, tenant: Tenant, entity: Id): set<Id> {
    set f | f in facts && MovesWith(facts[f], tenant, entity)
  }

  function Moved(fact: Fact, to: Id, now: Time): Fact {
    fact.(entity := to, lastSeenAt := now)
  }

  /** Facts after the ones in `moved` changed owner. */
  function Rehomed(facts: map<Id, Fact>, moved: set<Id>, to: Id, now: Time): map<Id, Fact> {
    map f | f in facts :: if f in moved then Moved(facts[f], to, now) else facts[f]
  }

  predicate IsNewEdge(r: RelId, moved: set<Id>, to: Id) {
    r.FactEdge? && r.entity == to && r.fact in moved
  }

  /** Entity edges after the facts in `moved` changed owner: one fresh edge each, every older one gone. */
  function RehomedEdges(rels: map<RelId, Rel>, facts: map<Id, Fact>, moved: set<Id>, to: Id): map<RelId, Rel>
    requires moved <= facts.Keys
  {
    map r | r in rels.Keys + (set f | f in moved :: FactEdge(to, f))
          && (IsNewEdge(r, moved, to) || !(r.FactEdge? && rels[r].dst in moved)) ::
      if IsNewEdge(r, moved, to) then FactRel(facts[r.fact], to) else rels[r]
  }

  function WithoutEntityEdges(rels: map<RelId, Rel>, fact: Id): map<RelId, Rel> {
    map r | r in rels && !(r.FactEdge? && rels[r].dst == fact) :: rels[r]
  }

  lemma NoneRehomed(g: Graph, to: Id, now: Time)
    ensures Rehomed(g.facts, {}, to, now) == g.facts && RehomedEdges(g.rels, g.facts, {}, to) == g.rels
  {}

  /** Moving the facts one by one moves them all. */
  lemma RehomeOneMore(g: Graph, done: set<Id>, f: Id, to: Id, now: Time)
    requires g.Keyed() && done <= g.facts.Keys && f in g.facts && f !in done
    ensures Rehomed(g.facts, done, to, now)[f := Moved(g.facts[f], to, now)] == Rehomed(g.facts, done + {f}, to, now)
    ensures WithoutEntityEdges(RehomedEdges(g.rels, g.facts, done, to), f)[FactEdge(to, f) := FactRel(g.facts[f], to)]
         == RehomedEdges(g.rels, g.facts, done + {f}, to)
  {
    var before := RehomedEdges(g.rels, g.facts, done, to);
    var left := WithoutEntityEdges(before, f)[FactEdge(to, f) := FactRel(g.facts[f], to)];
    var right := RehomedEdges(g.rels, g.facts, done + {f}, to);
    forall r
      ensures r in left <==> r in right
      ensures r in left ==> left[r] == right[r]
    {
      assert IsNewEdge(r, done + {f}, to) <==> IsNewEdge(r, done, to) || r == FactEdge(to, f);
      assert IsNewEdge(r, done, to) ==> before[r].dst == r.fact;
    }
    assert left.Keys == right.Keys;
  }

  ghost predicate SameEntry(a: map<RelId, Rel>, b: map<RelId, Rel>, r: RelId) {
    (r in a <==> r in b) && (r in a ==> a[r] == b[r])
  }

  predicate Touches(r: RelId, rel: Rel, tenant: Tenant, node: Id) {
    r.Plain? && rel.tenant == tenant && (rel.src == node || rel.dst == node)
  }

  predicate Collapses(r: RelId, rel: Rel, tenant: Tenant, from: Id, to: Id) {
    Touches(r, rel, tenant, from) && Redirect(rel.src, from, to) == Redirect(rel.dst, from, to)
  }

  function RedirectedRel(r: RelId, rel: Rel, tenant: Tenant, from: Id, to: Id): Rel {
    if Touches(r, rel, tenant, from)
    then rel.(src := Redirect(rel.src, from, to), dst := Redirect(rel.dst, from, to))
    else rel
  }

  /** Ordinary edges of the tenant after every endpoint `from` became `to`; edges collapsed to a loop are gone. */
  function Rewired(rels: map<RelId, Rel>, tenant: Tenant, from: Id, to: Id): map<RelId, Rel> {
    map r | r in rels && !Collapses(r, rels[r], tenant, from, to) ::
      RedirectedRel(r, rels[r], tenant, from, to)
  }

  /** The same for the edges in `some` only. */
  function RewiredSome(rels: map<RelId, Rel>, some: set<RelId>, tenant: Tenant, from: Id, to: Id): map<RelId, Rel> {
    map r | r in rels && !(r in some && Collapses(r, rels[r], tenant, from, to)) ::
      if r in some then RedirectedRel(r, rels[r], tenant, from, to) else rels[r]
  }

  lemma RewireOneMore(rels: map<RelId, Rel>, done: set<RelId>, r: RelId, tenant: Tenant, from: Id, to: Id)
    requires r in rels && r !in done
    ensures var before, after := RewiredSome(rels, done, tenant, from, to),
            RewiredSome(rels, done + {r}, tenant, from, to);
            && r in before && before[r] == rels[r]
            && after == if Collapses(r, rels[r], tenant, from, to) then before - {r}
                        else before[r := RedirectedRel(r, rels[r], tenant, from, to)]
  {}

  lemma RewiredAll(rels: map<RelId, Rel>, some: set<RelId>, tenant: Tenant, from: Id, to: Id)
    ensures RewiredSome(rels, {}, tenant, from, to) == rels
    ensures rels.Keys <= some ==> RewiredSome(rels, some, tenant, from, to) == Rewired(rels, tenant, from, to)
  {}

  /** The graph after `duplicate` was merged into `canonical`. */
  function Merged(g: Graph, canonical: Node, duplicate: Node, aliases: seq<string>,
                  mergeId: Id, mergeRel: Rel, now: Time): Graph
  {
    var moved := MovedFacts(g.facts, canonical.tenant, duplicate.id);
    Graph(
      g.nodes[canonical.id := canonical.(aliases := aliases, updatedAt := now)]
             [duplicate.id := duplicate.(status := Superseded, updatedAt := now)],
      Rewired(RehomedEdges(g.rels, g.facts, moved, canonical.id), canonical.tenant, duplicate.id, canonical.id)
        [Plain(mergeId) := mergeRel],
      Rehomed(g.facts, moved, canonical.id, now))
  }

  /** Whether `reassignFact` finds both the fact and its new owner in the tenant. */
  predicate CanReassignFact(g: Graph, fact: Id, tenant: Tenant, entity: Id) {
    fact in g.facts && g.facts[fact].tenant == tenant && entity in g.nodes && g.nodes[entity].tenant == tenant
  }

  /** Every synthetic edge of the tenant that points at the fact: its entity edges, and the source edges of
      facts that name this fact as their source. */
  predicate PointsAtFact(r: RelId, rel: Rel, fact: Id, tenant: Tenant) {
    !r.Plain? && rel.tenant == tenant && rel.dst == fact
  }

  /** Edges after the fact changed owner: nothing synthetic points at it but its one new entity edge. */
  function Replanted(rels: map<RelId, Rel>, id: Id, fact: Fact, tenant: Tenant, entity: Id): map<RelId, Rel> {
    (map r | r in rels && !PointsAtFact(r, rels[r], id, tenant) ::
     rels[r])[FactEdge(entity, id) := FactRel(fact, entity)]
  }

  function FactReassigned(g: Graph, fact: Id, tenant: Tenant, entity: Id, now: Time): Graph
    requires CanReassignFact(g, fact, tenant, entity)
  {
    g.(facts := g.facts[fact := Moved(g.facts[fact], entity, now)],
       rels := Replanted(g.rels, fact, g.facts[fact], tenant, entity))
  }

  predicate CanReassignRel(g: Graph, rel: Id, tenant: Tenant, from: Id, to: Id) {
    && Plain(rel) in g.rels
    && to in g.nodes && g.nodes[to].tenant == tenant
    && Touches(Plain(rel), g.rels[Plain(rel)], tenant, from)
  }

  /** Moves one endpoint; an edge that would become a loop is deleted instead. */
  function RelReassigned(g: Graph, rel: Id, tenant: Tenant, from: Id, to: Id): Graph
    requires CanReassignRel(g, rel, tenant, from, to)
  {
    var r := Plain(rel);
    if Collapses(r, g.rels[r], tenant, from, to) then g.(rels := g.rels - {r})
    else g.(rels := g.rels[r := RedirectedRel(r, g.rels[r], tenant, from, to)])
  }

  /** The fact's validity interval, closed at both ends and open-ended without a `valid_to`, contains the moment. */
  predicate ValidAt(f: Fact, time: Moment) {
    var from := MomentOf(f.validFrom, 0);
    && (IsAfter(time, from) || IsSame(time, from))
    && (f.validTo.Absent? || IsAfter(MomentOf(f.validTo, 0), time) || IsSame(MomentOf(f.validTo, 0), time))
  }

  function AsOf(facts: map<Id, Fact>, tenant: Tenant, entity: Id, time: Moment): set<Id> {
    set f | f in facts && facts[f].tenant == tenant && facts[f].entity == entity && ValidAt(facts[f], time)
  }

  // ---------- the store ----------

  class Neo4jClient {
    var nodes: map<Id, Node>
    var rels: map<RelId, Rel>
    var facts: map<Id, Fact>

    ghost function State(): Graph
      reads this
    {
      Graph(nodes, rels, facts)
    }

    constructor ()
      ensures State() == Graph(map[], map[], map[])
    {
      nodes, rels, facts := map[], map[], map[];
    }

    method UpsertNode(node: Node)
      modifies this
      ensures State() == WithNode(old(State()), node)
    {
      nodes := nodes[node.id := node];
    }

    method UpsertRelationship(id: Id, rel: Rel)
      modifies this
      ensures State() == WithRel(old(State()), id, rel)
    {
      rels := rels[Plain(id) := rel];
    }

    method UpsertFact(fact: Fact)
      modifies this
      ensures State() == WithFact(old(State()), fact)
    {
      facts := facts[fact.id := fact];
      rels := rels[FactEdge(fact.entity, fact.id) := FactRel(fact, fact.entity)];
      rels := rels[SourceEdge(fact.id, fact.source) := SourceRel(fact)];
    }

    method ListNodes(tenant: Tenant) returns (ids: seq<Id>)
      ensures Enumerates(ids, set n | n in nodes && nodes[n].tenant == tenant)
    {
      ids := Enumerate(set n | n in nodes && nodes[n].tenant == tenant);
    }

    /** Ordinary relationships of the tenant; synthetic fact edges are not listed. */
    method ListRelationships(tenant: Tenant) returns (ids: seq<RelId>)
      ensures Enumerates(ids, set r | r in rels && r.Plain? && rels[r].tenant == tenant)
    {
      ids := Enumerate(set r | r in rels && r.Plain? && rels[r].tenant == tenant);
    }

    method ListFactsByEntityAsOf(tenant: Tenant, entity: Id, time: Moment) returns (ids: seq<Id>)
      ensures Enumerates(ids, AsOf(facts, tenant, entity, time))
    {
      var all := Enumerate(facts.Keys);
      ids := [];
      var i := 0;
      while i < |all|
        invariant 0 <= i <= |all|
        invariant forall f :: f in ids <==> f in all[..i] && f in AsOf(facts, tenant, entity, time)
        invariant forall p, q :: 0 <= p < q < |ids| ==> ids[p] != ids[q]
      {
        assert all[i] in all && all[i] !in all[..i];
        var f := facts[all[i]];
        if f.tenant == tenant && f.entity == entity {
          var from := MomentOf(f.validFrom, 0);
          if (IsAfter(time, from) || IsSame(time, from))
             && (f.validTo.Absent? || IsAfter(MomentOf(f.validTo, 0), time) || IsSame(MomentOf(f.validTo, 0), time))
          {
            ids := ids + [all[i]];
          }
        }
        i := i + 1;
      }
      assert all[..i] == all;
    }

    /** Removes every synthetic edge of the tenant that points at the fact. */
    method DropEdgesTo(fact: Id, tenant: Tenant)
      modifies this`rels
      ensures rels == map r | r in old(rels) && !PointsAtFact(r, old(rels)[r], fact, tenant) :: old(rels)[r]
    {
      var order := Enumerate(rels.Keys);
      var i := 0;
      while i < |order|
        invariant 0 <= i <= |order|
        invariant rels == map r | r in old(rels)
                              && !(r in order[..i] && PointsAtFact(r, old(rels)[r], fact, tenant)) :: old(rels)[r]
      {
        var r := order[i];
        assert r in order && r !in order[..i];
        if !r.Plain? && rels[r].tenant == tenant && rels[r].dst == fact {
          rels := rels - {r};
        }
        i := i + 1;
      }
      assert order[..i] == order;
    }

    method ReassignFact(fact: Id, tenant: Tenant, entity: Id, now: Time) returns (moved: Option<Fact>)
      modifies this
      ensures old(CanReassignFact(State(), fact, tenant, entity)) ==>
                && State() == FactReassigned(old(State()), fact, tenant, entity, now)
                && moved == Some(facts[fact])
      ensures !old(CanReassignFact(State(), fact, tenant, entity)) ==>
                State() == old(State()) && moved == None
    {
      if fact !in facts || facts[fact].tenant != tenant || entity !in nodes || nodes[entity].tenant != tenant {
        return None;
      }
      DropEdgesTo(fact, tenant);
      var before := facts[fact];
      facts := facts[fact := before.(entity := entity, lastSeenAt := now)];
      rels := rels[FactEdge(entity, fact) := FactRel(before, entity)];
      moved := Some(facts[fact]);
    }

    method ReassignRelationship(rel: Id, tenant: Tenant, from: Id, to: Id) returns (moved: Option<Rel>)
      modifies this
      ensures old(CanReassignRel(State(), rel, tenant, from, to)) ==>
                && State() == RelReassigned(old(State()), rel, tenant, from, to)
                && moved == (if Plain(rel) in rels then Some(rels[Plain(rel)]) else None)
      ensures !old(CanReassignRel(State(), rel, tenant, from, to)) ==>
                State() == old(State()) && moved == None
    {
      var r := Plain(rel);
      if r !in rels || rels[r].tenant != tenant || to !in nodes || nodes[to].tenant != tenant
         || (rels[r].src != from && rels[r].dst != from) {
        return None;
      }
      var src := if rels[r].src == from then to else rels[r].src;
      var dst := if rels[r].dst == from then to else rels[r].dst;
      if src == dst {
        rels := rels - {r};
        return None;
      }
      rels := rels[r := rels[r].(src := src, dst := dst)];
      moved := Some(rels[r]);
    }

    /** Removes every entity edge that points at the fact. */
    method DropEntityEdges(fact: Id)
      modifies this`rels
      ensures rels == WithoutEntityEdges(old(rels), fact)
    {
      var order := Enumerate(rels.Keys);
      var i := 0;
      while i < |order|
        invariant 0 <= i <= |order|
        invariant rels == map r | r in old(rels)
                              && !(r in order[..i] && r.FactEdge? && old(rels)[r].dst == fact) :: old(rels)[r]
      {
        var r := order[i];
        assert r in order && r !in order[..i];
        if r.FactEdge? && rels[r].dst == fact {
          rels := rels - {r};
        }
        i := i + 1;
      }
      assert order[..i] == order;
    }

    /** Gives every fact of `duplicate` to `canonical`, with its entity edge. */
    method MoveFacts(tenant: Tenant, duplicate: Id, canonical: Id, now: Time)
      requires State().Keyed()
      modifies this`rels, this`facts
      ensures facts == Rehomed(old(facts), MovedFacts(old(facts), tenant, duplicate), canonical, now)
      ensures rels == RehomedEdges(old(rels), old(facts), MovedFacts(old(facts), tenant, duplicate), canonical)
    {
      ghost var g := State();
      var order := Enumerate(MovedFacts(facts, tenant, duplicate));
      EnumeratesAll(order, MovedFacts(facts, tenant, duplicate));
      NoElements(order);
      NoneRehomed(g, canonical, now);
      var i := 0;
      while i < |order|
        invariant 0 <= i <= |order|
        invariant Elements(order[..i]) <= g.facts.Keys
        invariant facts == Rehomed(g.facts, Elements(order[..i]), canonical, now)
        invariant rels == RehomedEdges(g.rels, g.facts, Elements(order[..i]), canonical)
      {
        var f := order[i];
        ghost var done := Elements(order[..i]);
        ElementsOneMore(order, i);
        RehomeOneMore(g, done, f, canonical, now);
        var fact := facts[f];
        facts := facts[fact.id := fact.(entity := canonical, lastSeenAt := now)];
        DropEntityEdges(fact.id);
        rels := rels[FactEdge(canonical, fact.id) := FactRel(fact, canonical)];
        i := i + 1;
      }
    }

    /** Redirects every ordinary edge of the tenant away from `duplicate`. */
    method RewireEdges(tenant: Tenant, duplicate: Id, canonical: Id)
      modifies this`rels
      ensures rels == Rewired(old(rels), tenant, duplicate, canonical)
    {
      ghost var before := rels;
      var order := Enumerate(rels.Keys);
      EnumeratesAll(order, rels.Keys);
      RewiredAll(before, before.Keys, tenant, duplicate, canonical);
      NoElements(order);
      var i := 0;
      while i < |order|
        invariant 0 <= i <= |order|
        invariant rels == RewiredSome(before, Elements(order[..i]), tenant, duplicate, canonical)
      {
        var r := order[i];
        ElementsOneMore(order, i);
        RewireOneMore(before, Elements(order[..i]), r, tenant, duplicate, canonical);
        var rel := rels[r];
        i := i + 1;
        if !r.Plain? || rel.tenant != tenant || (rel.src != duplicate && rel.dst != duplicate) {
          assert rels[r := rel] == rels;
          continue;
        }
        var src := if rel.src == duplicate then canonical else rel.src;
        var dst := if rel.dst == duplicate then canonical else rel.dst;
        if src == dst {
          rels := rels - {r};
        } else {
          rels := rels[r := rel.(src := src, dst := dst)];
        }
      }
    }

    method MergeEntities(canonical: Node, duplicate: Node, aliases: seq<string>,
                         mergeId: Id, mergeRel: Rel, now: Time)
      requires State().Keyed()
      modifies this
      ensures State() == Merged(old(State()), canonical, duplicate, aliases, mergeId, mergeRel, now)
    {
      nodes := nodes[canonical.id := canonical.(aliases := aliases, updatedAt := now)];
      nodes := nodes[duplicate.id := duplicate.(status := Superseded, updatedAt := now)];
      MoveFacts(canonical.tenant, duplicate.id, canonical.id, now);
      RewireEdges(canonical.tenant, duplicate.id, canonical.id);
      rels := rels[Plain(mergeId) := mergeRel];
    }
  }
}
