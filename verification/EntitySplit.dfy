/** Splitting an entity: the reassignment plan, what makes it valid, and the graph it leads to. */
module EntitySplit {
  import opened Common
  import opened GraphModel
  import opened GraphStore

  datatype SplitTarget = SplitTarget(name: string, aliases: seq<string>, facts: seq<Id>, rels: seq<RelId>)

  predicate IsBlank(name: string) {
    forall c :: c in name ==> c in {' ', '\t', '\n', '\r'}
  }

  function AllFacts(targets: seq<SplitTarget>): seq<Id> {
    if targets == [] then [] else AllFacts(targets[..|targets| - 1]) + targets[|targets| - 1].facts
  }

  function AllRels(targets: seq<SplitTarget>): seq<RelId> {
    if targets == [] then [] else AllRels(targets[..|targets| - 1]) + targets[|targets| - 1].rels
  }

  ghost predicate NoRepeats<T(!new)>(s: seq<T>) {
    forall i, j :: 0 <= i < j < |s| ==> s[i] != s[j]
  }

  predicate FactFits(g: Graph, tenant: Tenant, original: Id, f: Id) {
    f in g.facts && g.facts[f].tenant == tenant && g.facts[f].entity == original
  }

  predicate RelFits(g: Graph, tenant: Tenant, original: Id, r: RelId) {
    r in g.rels && Touches(r, g.rels[r], tenant, original)
  }

  /** What the validation accepts. */
  ghost predicate SplitOk(g: Graph, tenant: Tenant, original: Id, targets: seq<SplitTarget>) {
    && original in g.nodes && g.nodes[original].tenant == tenant
    && targets != []
    && (forall t :: t in targets ==> !IsBlank(t.name))
    && NoRepeats(AllFacts(targets)) && (forall f :: f in AllFacts(targets) ==> FactFits(g, tenant, original, f))
    && NoRepeats(AllRels(targets)) && (forall r :: r in AllRels(targets) ==> RelFits(g, tenant, original, r))
  }

  predicate IsLoop(g: Graph, r: RelId) {
    r in g.rels && g.rels[r].src == g.rels[r].dst
  }

  /** Identifiers in use anywhere; a generated node id is none of them. */
  function KnownIds(g: Graph): set<Id> {
    g.nodes.Keys + g.facts.Keys + (set r | r in g.rels :: g.rels[r].src) + (set r | r in g.rels :: g.rels[r].dst)
  }

  /** Who gets what so far: new nodes, and the new owner of each moved fact and relationship. */
  datatype Progress = Progress(added: map<Id, Node>, factTo: map<Id, Id>, relTo: map<RelId, Id>)

  const NOTHING := Progress(map[], map[], map[])

  /** A synthetic edge that disappears because it points at a moved fact. */
  predicate Uprooted(r: RelId, rel: Rel, tenant: Tenant, moved: set<Id>) {
    !r.Plain? && rel.tenant == tenant && rel.dst in moved
  }

  predicate IsNewOwnership(r: RelId, factTo: map<Id, Id>) {
    r.FactEdge? && r.fact in factTo && r.entity == factTo[r.fact]
  }

  function NewOwnerships(factTo: map<Id, Id>): set<RelId> {
    set f | f in factTo :: FactEdge(factTo[f], f)
  }

  /** Edges once the facts in `factTo` have new owners: one entity edge each, nothing else synthetic pointing at
      them. */
  function Owned(rels: map<RelId, Rel>, facts: map<Id, Fact>, tenant: Tenant, factTo: map<Id, Id>): map<RelId, Rel>
    requires factTo.Keys <= facts.Keys
  {
    map r | r in rels.Keys + NewOwnerships(factTo)
          && (IsNewOwnership(r, factTo) || !Uprooted(r, rels[r], tenant, factTo.Keys)) ::
      if IsNewOwnership(r, factTo) then FactRel(facts[r.fact], r.entity) else rels[r]
  }

  /** Edges once those in `relTo` have one endpoint replaced. */
  function Turned(rels: map<RelId, Rel>, tenant: Tenant, original: Id, relTo: map<RelId, Id>): map<RelId, Rel> {
    map r | r in rels :: if r in relTo then RedirectedRel(r, rels[r], tenant, original, relTo[r]) else rels[r]
  }

  function Given(facts: map<Id, Fact>, factTo: map<Id, Id>, now: Time): map<Id, Fact> {
    map f | f in facts :: if f in factTo then Moved(facts[f], factTo[f], now) else facts[f]
  }

  /** The graph once the reassignments in `p` are made. */
  function Split(g: Graph, tenant: Tenant, original: Id, p: Progress, now: Time): Graph
    requires p.factTo.Keys <= g.facts.Keys
  {
    Graph(g.nodes + p.added,
          Turned(Owned(g.rels, g.facts, tenant, p.factTo), tenant, original, p.relTo),
          Given(g.facts, p.factTo, now))
  }

  /** The progress makes sense: moved facts belong to the original, moved edges are ordinary, new ids are new. */
  ghost predicate Sensible(g: Graph, tenant: Tenant, original: Id, p: Progress) {
    && g.Keyed()
    && (forall f :: f in p.factTo ==> FactFits(g, tenant, original, f) && p.factTo[f] in p.added)
    && (forall r :: r in p.relTo ==> RelFits(g, tenant, original, r) && !IsLoop(g, r) && p.relTo[r] in p.added)
    && (forall n :: n in p.added ==> n !in KnownIds(g) && p.added[n].id == n && p.added[n].tenant == tenant)
  }

  lemma SplitOfNothing(g: Graph, tenant: Tenant, original: Id, now: Time)
    ensures Split(g, tenant, original, NOTHING, now) == g
  {
    assert NewOwnerships(map[]) == {};
    assert Owned(g.rels, g.facts, tenant, map[]) == g.rels;
    assert Turned(g.rels, tenant, original, map[]) == g.rels;
    assert Given(g.facts, map[], now) == g.facts;
  }

  lemma SplitAddsNode(g: Graph, tenant: Tenant, original: Id, p: Progress, now: Time, node: Node)
    requires p.factTo.Keys <= g.facts.Keys
    ensures WithNode(Split(g, tenant, original, p, now), node)
         == Split(g, tenant, original, p.(added := p.added[node.id := node]), now)
  {
    assert (g.nodes + p.added)[node.id := node] == g.nodes + p.added[node.id := node];
  }

  lemma OwnedAt(rels: map<RelId, Rel>, facts: map<Id, Fact>, tenant: Tenant, factTo: map<Id, Id>, r: RelId)
    requires factTo.Keys <= facts.Keys
    ensures var after := Owned(rels, facts, tenant, factTo);
            && (r in after <==> IsNewOwnership(r, factTo) || (r in rels && !Uprooted(r, rels[r], tenant, factTo.Keys)))
            && (r in after ==> after[r] == if IsNewOwnership(r, factTo) then FactRel(facts[r.fact], r.entity)
                else rels[r])
  {
    assert r in NewOwnerships(factTo) <==> IsNewOwnership(r, factTo);
  }

  lemma OwnedGrows(rels: map<RelId, Rel>, facts: map<Id, Fact>, tenant: Tenant, factTo: map<Id, Id>, f: Id, owner: Id)
    requires factTo.Keys <= facts.Keys && f in facts && f !in factTo
    requires forall x :: x in facts ==> facts[x].id == x
    ensures Replanted(Owned(rels, facts, tenant, factTo), f, facts[f], tenant, owner)
            == Owned(rels, facts, tenant, factTo[f := owner])
  {
    var left := Replanted(Owned(rels, facts, tenant, factTo), f, facts[f], tenant, owner);
    var right := Owned(rels, facts, tenant, factTo[f := owner]);
    forall r
      ensures r in left <==> r in right
      ensures r in left ==> left[r] == right[r]
    {
      OwnedAt(rels, facts, tenant, factTo, r);
      OwnedAt(rels, facts, tenant, factTo[f := owner], r);
    }
    assert left.Keys == right.Keys;
  }

  /** Turning ordinary edges and dropping synthetic ones do not interfere. */
  lemma TurnedKeepsSynthetic(rels: map<RelId, Rel>, tenant: Tenant, original: Id, relTo: map<RelId, Id>,
                             f: Id, fact: Fact, owner: Id)
    requires forall r :: r in relTo ==> r.Plain?
    ensures Replanted(Turned(rels, tenant, original, relTo), f, fact, tenant, owner)
         == Turned(Replanted(rels, f, fact, tenant, owner), tenant, original, relTo)
  {
    assert Replanted(Turned(rels, tenant, original, relTo), f, fact, tenant, owner).Keys
        == Turned(Replanted(rels, f, fact, tenant, owner), tenant, original, relTo).Keys;
  }

  lemma GivenGrows(facts: map<Id, Fact>, factTo: map<Id, Id>, now: Time, f: Id, owner: Id)
    requires f in facts && f !in factTo
    ensures Given(facts, factTo, now)[f := Moved(facts[f], owner, now)] == Given(facts, factTo[f := owner], now)
  {}

  lemma SplitMovesFact(g: Graph, tenant: Tenant, original: Id, p: Progress, now: Time, f: Id, owner: Id)
    requires Sensible(g, tenant, original, p)
    requires FactFits(g, tenant, original, f) && f !in p.factTo && owner in p.added
    ensures CanReassignFact(Split(g, tenant, original, p, now), f, tenant, owner)
    ensures FactReassigned(Split(g, tenant, original, p, now), f, tenant, owner, now)
         == Split(g, tenant, original, p.(factTo := p.factTo[f := owner]), now)
  {
    OwnedGrows(g.rels, g.facts, tenant, p.factTo, f, owner);
    TurnedKeepsSynthetic(Owned(g.rels, g.facts, tenant, p.factTo), tenant, original, p.relTo, f, g.facts[f], owner);
    GivenGrows(g.facts, p.factTo, now, f, owner);
  }

  lemma SensibleWithFact(g: Graph, tenant: Tenant, original: Id, p: Progress, f: Id, owner: Id)
    requires Sensible(g, tenant, original, p) && FactFits(g, tenant, original, f) && owner in p.added
    ensures Sensible(g, tenant, original, p.(factTo := p.factTo[f := owner]))
  {}

  lemma SensibleWithRel(g: Graph, tenant: Tenant, original: Id, p: Progress, r: RelId, owner: Id)
    requires Sensible(g, tenant, original, p) && RelFits(g, tenant, original, r) && !IsLoop(g, r) && owner in p.added
    ensures Sensible(g, tenant, original, p.(relTo := p.relTo[r := owner]))
  {}

  lemma SensibleWithNode(g: Graph, tenant: Tenant, original: Id, p: Progress, node: Node)
    requires Sensible(g, tenant, original, p) && node.id !in KnownIds(g) && node.tenant == tenant
    ensures Sensible(g, tenant, original, p.(added := p.added[node.id := node]))
  {}

  lemma TurnedGrows(rels: map<RelId, Rel>, tenant: Tenant, original: Id, relTo: map<RelId, Id>, r: RelId, owner: Id)
    requires r in rels && r !in relTo
    ensures Turned(rels, tenant, original, relTo)[r := RedirectedRel(r, rels[r], tenant, original, owner)]
         == Turned(rels, tenant, original, relTo[r := owner])
  {}

  lemma ListedRelUntouched(g: Graph, tenant: Tenant, original: Id, p: Progress, now: Time, r: RelId)
    requires Sensible(g, tenant, original, p) && RelFits(g, tenant, original, r) && r !in p.relTo
    ensures r in Split(g, tenant, original, p, now).rels && Split(g, tenant, original, p, now).rels[r] == g.rels[r]
  {
    OwnedAt(g.rels, g.facts, tenant, p.factTo, r);
  }

  /** Reassigning a listed edge works exactly when it is not a loop. */
  lemma SplitMovesRel(g: Graph, tenant: Tenant, original: Id, p: Progress, now: Time, r: RelId, owner: Id)
    requires Sensible(g, tenant, original, p)
    requires RelFits(g, tenant, original, r) && r !in p.relTo && owner in p.added
    ensures CanReassignRel(Split(g, tenant, original, p, now), r.id, tenant, original, owner)
    ensures IsLoop(g, r) <==> Collapses(r, g.rels[r], tenant, original, owner)
    ensures !IsLoop(g, r) ==>
              RelReassigned(Split(g, tenant, original, p, now), r.id, tenant, original, owner)
              == Split(g, tenant, original, p.(relTo := p.relTo[r := owner]), now)
  {
    ListedRelUntouched(g, tenant, original, p, now, r);
    assert g.rels[r].src in KnownIds(g) && g.rels[r].dst in KnownIds(g);
    OwnedAt(g.rels, g.facts, tenant, p.factTo, r);
    TurnedGrows(Owned(g.rels, g.facts, tenant, p.factTo), tenant, original, p.relTo, r, owner);
  }

  // ---------- the plan, target by target ----------

  lemma {:induction false} ListedSoFar(targets: seq<SplitTarget>, k: nat)
    requires k < |targets|
    ensures AllFacts(targets[..k + 1]) == AllFacts(targets[..k]) + targets[k].facts
    ensures AllRels(targets[..k + 1]) == AllRels(targets[..k]) + targets[k].rels
    ensures AllFacts(targets[..k]) + targets[k].facts <= AllFacts(targets)
    ensures AllRels(targets[..k]) + targets[k].rels <= AllRels(targets)
  {
    assert targets[..k + 1][..k] == targets[..k];
    var n := |targets| - 1;
    if k == n {
      assert targets[..k + 1] == targets;
    } else {
      ListedSoFar(targets[..n], k);
      assert targets[..n][..k] == targets[..k];
    }
  }

  /** A fact of the whole list belongs to one of the targets. */
  lemma {:induction false} FactListedSomewhere(targets: seq<SplitTarget>)
    ensures forall f :: f in AllFacts(targets) <==> exists k :: 0 <= k < |targets| && f in targets[k].facts
  {
    if targets != [] {
      var n := |targets| - 1;
      FactListedSomewhere(targets[..n]);
      assert forall k :: 0 <= k < n ==> targets[..n][k] == targets[k];
    }
  }

  lemma {:induction false} RelListedSomewhere(targets: seq<SplitTarget>)
    ensures forall r :: r in AllRels(targets) <==> exists k :: 0 <= k < |targets| && r in targets[k].rels
  {
    if targets != [] {
      var n := |targets| - 1;
      RelListedSomewhere(targets[..n]);
      assert forall k :: 0 <= k < n ==> targets[..n][k] == targets[k];
    }
  }

  function SplitNode(original: Node, tenant: Tenant, target: SplitTarget, id: Id, now: Time): Node {
    Node(id, tenant, original.typ, target.name, target.aliases, Current, At(now), now, now, original.sourceId,
         "correction_split")
  }

  function PlanIds(plan: seq<Node>): set<Id> {
    set k | 0 <= k < |plan| :: plan[k].id
  }

  lemma PlanIdsSnoc(plan: seq<Node>, node: Node)
    ensures PlanIds(plan + [node]) == PlanIds(plan) + {node.id}
  {
    var longer := plan + [node];
    assert longer[|plan|] == node && forall k :: 0 <= k < |plan| ==> longer[k] == plan[k];
    forall x | x in PlanIds(plan) ensures x in PlanIds(longer) {
      var k :| 0 <= k < |plan| && plan[k].id == x;
      assert longer[k].id == x;
    }
  }

  /** One new owner for everything in the list. */
  function AllTo<K>(keys: seq<K>, owner: Id): map<K, Id> {
    map x | x in keys :: owner
  }

  lemma AllToSnoc<K>(m: map<K, Id>, keys: seq<K>, i: nat, owner: Id)
    requires i < |keys|
    ensures m + AllTo(keys[..i + 1], owner) == (m + AllTo(keys[..i], owner))[keys[i] := owner]
  {
    assert keys[..i + 1] == keys[..i] + [keys[i]];
  }

  function WithFactsTo(p: Progress, facts: seq<Id>, owner: Id): Progress {
    p.(factTo := p.factTo + AllTo(facts, owner))
  }

  function WithRelsTo(p: Progress, rels: seq<RelId>, owner: Id): Progress {
    p.(relTo := p.relTo + AllTo(rels, owner))
  }

  lemma NoneTo(p: Progress, facts: seq<Id>, rels: seq<RelId>, owner: Id)
    ensures WithFactsTo(p, facts[..0], owner) == p && WithRelsTo(p, rels[..0], owner) == p
  {}

  lemma OneMoreFactTo(p: Progress, facts: seq<Id>, i: nat, owner: Id)
    requires i < |facts|
    ensures var q := WithFactsTo(p, facts[..i], owner);
            WithFactsTo(p, facts[..i + 1], owner) == q.(factTo := q.factTo[facts[i] := owner])
  {
    AllToSnoc(p.factTo, facts, i, owner);
  }

  lemma OneMoreRelTo(p: Progress, rels: seq<RelId>, i: nat, owner: Id)
    requires i < |rels|
    ensures var q := WithRelsTo(p, rels[..i], owner);
            WithRelsTo(p, rels[..i + 1], owner) == q.(relTo := q.relTo[rels[i] := owner])
  {
    AllToSnoc(p.relTo, rels, i, owner);
  }

  ghost predicate Planned(g: Graph, tenant: Tenant, original: Node, targets: seq<SplitTarget>, plan: seq<Node>,
                          now: Time) {
    && |plan| == |targets|
    && (forall k :: 0 <= k < |plan| ==>
          plan[k] == SplitNode(original, tenant, targets[k], plan[k].id, now) && plan[k].id !in KnownIds(g))
    && (forall i, j :: 0 <= i < j < |plan| ==> plan[i].id != plan[j].id)
  }

  /** Each planned node is a current one of the original's type, named as its target asks, under a new id. */
  lemma PlanMeetsTargets(g: Graph, tenant: Tenant, original: Node, targets: seq<SplitTarget>, plan: seq<Node>,
                         now: Time, k: nat)
    requires Planned(g, tenant, original, targets, plan, now) && k < |plan|
    ensures plan[k].name == targets[k].name && plan[k].aliases == targets[k].aliases
    ensures plan[k].tenant == tenant && plan[k].typ == original.typ && plan[k].sourceId == original.sourceId
    ensures plan[k].status == Current && plan[k].createdAt == At(now)
    ensures plan[k].id !in g.nodes && plan[k].id !in g.facts
  {}

  lemma PlannedSnoc(g: Graph, tenant: Tenant, original: Node, targets: seq<SplitTarget>, plan: seq<Node>, id: Id,
                    now: Time)
    requires |plan| < |targets| && Planned(g, tenant, original, targets[..|plan|], plan, now)
    requires id !in KnownIds(g) && id !in PlanIds(plan)
    ensures Planned(g, tenant, original, targets[..|plan| + 1],
                    plan + [SplitNode(original, tenant, targets[|plan|], id, now)], now)
  {
    var n := |plan|;
    var longer := plan + [SplitNode(original, tenant, targets[n], id, now)];
    forall i | 0 <= i < n ensures longer[i] == plan[i] && targets[..n + 1][i] == targets[..n][i]
        && plan[i].id in PlanIds(plan) {}
    assert longer[n].id == id;
  }

  /** The progress once the first `n` targets are served. */
  ghost predicate Served(targets: seq<SplitTarget>, plan: seq<Node>, n: nat, p: Progress)
    requires n <= |targets| == |plan|
  {
    && p.added.Keys == PlanIds(plan[..n])
    && p.factTo.Keys == Elements(AllFacts(targets[..n]))
    && p.relTo.Keys == Elements(AllRels(targets[..n]))
    && forall k :: 0 <= k < n ==> ServedOne(targets, plan, k, p)
  }

  ghost predicate ServedOne(targets: seq<SplitTarget>, plan: seq<Node>, k: nat, p: Progress)
    requires k < |targets| == |plan|
  {
    && plan[k].id in p.added && p.added[plan[k].id] == plan[k]
    && (forall f :: f in targets[k].facts ==> f in p.factTo && p.factTo[f] == plan[k].id)
    && (forall r :: r in targets[k].rels ==> r in p.relTo && p.relTo[r] == plan[k].id)
  }

  // ---------- where everything ends up ----------

  /** Only the targets' new nodes appear, and the original is superseded. */
  ghost predicate NodesSplit(before: Graph, after: Graph, original: Node, plan: seq<Node>, now: Time) {
    && after.nodes.Keys == before.nodes.Keys + PlanIds(plan)
    && (forall k :: 0 <= k < |plan| ==> after.nodes[plan[k].id] == plan[k])
    && original.id in before.nodes
    && after.nodes[original.id] == original.(status := Superseded, updatedAt := now)
    && (forall n :: n in before.nodes && n != original.id ==> after.nodes[n] == before.nodes[n])
  }

  /** Each listed fact ends at exactly its own target; all others stay put. */
  ghost predicate FactsAreMoved(before: map<Id, Fact>, after: map<Id, Fact>, targets: seq<SplitTarget>, plan: seq<Node>,
                                now: Time)
    requires |targets| == |plan|
  {
    && after.Keys == before.Keys
    && (forall k, f :: 0 <= k < |targets| && f in targets[k].facts ==>
          f in before && after[f] == Moved(before[f], plan[k].id, now))
    && (forall f :: f in before && f !in AllFacts(targets) ==> after[f] == before[f])
  }

  /** Each listed edge has its endpoint at exactly its own target; all other ordinary edges stay put. */
  ghost predicate EdgesAreMoved(before: map<RelId, Rel>, after: map<RelId, Rel>, tenant: Tenant, original: Id,
                                targets: seq<SplitTarget>, plan: seq<Node>)
    requires |targets| == |plan|
  {
    && (forall r :: r in after && r.Plain? <==> r in before && r.Plain?)
    && (forall k, r :: 0 <= k < |targets| && r in targets[k].rels ==>
          r in before && r in after && after[r] == RedirectedRel(r, before[r], tenant, original, plan[k].id))
    && (forall r :: r in before && r.Plain? && r !in AllRels(targets) ==> r in after && after[r] == before[r])
  }

  /** Within the tenant, the fact's one entity edge comes from its entity. */
  ghost predicate OwnedOnce(g: Graph, tenant: Tenant, f: Id) {
    f in g.facts &&
    var owner := g.facts[f].entity;
    && FactEdge(owner, f) in g.rels && g.rels[FactEdge(owner, f)].tenant == tenant
    && forall e :: FactEdge(e, f) in g.rels && g.rels[FactEdge(e, f)].tenant == tenant ==> e == owner
  }

  /** Moved facts have exactly one entity edge; other facts keep theirs; a source edge goes when its source was
      moved. */
  ghost predicate SyntheticEdgesSplit(before: Graph, after: Graph, tenant: Tenant, moved: seq<Id>) {
    && (forall f :: f in moved ==> OwnedOnce(after, tenant, f))
    && (forall e, f :: f !in moved ==> SameEntry(before.rels, after.rels, FactEdge(e, f)))
    && (forall f, s :: SourceEdge(f, s) in after.rels <==>
          SourceEdge(f, s) in before.rels && !(before.rels[SourceEdge(f, s)].tenant == tenant && s in moved))
    && (forall f, s :: SourceEdge(f, s) in after.rels ==> after.rels[SourceEdge(f, s)] == before.rels[SourceEdge(f, s)])
  }

  lemma SplitEdgeAt(g: Graph, tenant: Tenant, original: Id, p: Progress, now: Time, r: RelId)
    requires Sensible(g, tenant, original, p)
    ensures var after := Split(g, tenant, original, p, now).rels;
            && (r.Plain? ==> (r in after <==> r in g.rels))
            && (r.Plain? && r in g.rels ==>
                  after[r] == if r in p.relTo then RedirectedRel(r, g.rels[r], tenant, original, p.relTo[r])
                      else g.rels[r])
            && (r.SourceEdge? ==> (r in after
                                   <==> r in g.rels && !(g.rels[r].tenant == tenant && r.source in p.factTo)))
            && (r.SourceEdge? && r in after ==> after[r] == g.rels[r])
            && (r.FactEdge? && r.fact !in p.factTo ==> SameEntry(g.rels, after, r))
            && (r.FactEdge? && r.fact in p.factTo && p.factTo[r.fact] == r.entity ==>
                  r in after && after[r] == FactRel(g.facts[r.fact], r.entity))
            && (r.FactEdge? && r.fact in p.factTo && p.factTo[r.fact] != r.entity && r in after ==>
                after[r].tenant != tenant)
  {
    OwnedAt(g.rels, g.facts, tenant, p.factTo, r);
  }

  lemma SplitPlacesFacts(g: Graph, after: map<Id, Fact>, tenant: Tenant, original: Id, targets: seq<SplitTarget>,
                         plan: seq<Node>, p: Progress, now: Time)
    requires Sensible(g, tenant, original, p)
    requires |targets| == |plan| && Served(targets, plan, |targets|, p)
    requires after == Given(g.facts, p.factTo, now)
    ensures FactsAreMoved(g.facts, after, targets, plan, now)
  {
    TakeAll(targets);
    forall k, f | 0 <= k < |targets| && f in targets[k].facts
      ensures f in g.facts && after[f] == Moved(g.facts[f], plan[k].id, now)
    {
      assert ServedOne(targets, plan, k, p);
    }
  }

  lemma SplitPlacesListed(g: Graph, after: map<RelId, Rel>, tenant: Tenant, original: Id, targets: seq<SplitTarget>,
                          plan: seq<Node>, p: Progress, now: Time)
    requires Sensible(g, tenant, original, p)
    requires |targets| == |plan| && Served(targets, plan, |targets|, p)
    requires after == Split(g, tenant, original, p, now).rels
    ensures EdgesAreMoved(g.rels, after, tenant, original, targets, plan)
  {
    TakeAll(targets);
    forall r: RelId | r.Plain? ensures r in after <==> r in g.rels {
      PlainEdgeAt(g, after, tenant, original, p, now, r);
    }
    forall k, r | 0 <= k < |targets| && r in targets[k].rels
      ensures r in g.rels && r in after && after[r] == RedirectedRel(r, g.rels[r], tenant, original, plan[k].id)
    {
      ListedEdgeAt(g, after, tenant, original, targets, plan, p, now, k, r);
    }
    forall r | r in g.rels && r.Plain? && r !in AllRels(targets) ensures r in after && after[r] == g.rels[r] {
      PlainEdgeAt(g, after, tenant, original, p, now, r);
    }
  }

  lemma ListedEdgeAt(g: Graph, after: map<RelId, Rel>, tenant: Tenant, original: Id, targets: seq<SplitTarget>,
                     plan: seq<Node>, p: Progress, now: Time, k: nat, r: RelId)
    requires Sensible(g, tenant, original, p) && after == Split(g, tenant, original, p, now).rels
    requires |targets| == |plan| && k < |targets| && ServedOne(targets, plan, k, p) && r in targets[k].rels
    ensures r in g.rels && r in after && after[r] == RedirectedRel(r, g.rels[r], tenant, original, plan[k].id)
  {
    PlainEdgeAt(g, after, tenant, original, p, now, r);
  }

  lemma PlainEdgeAt(g: Graph, after: map<RelId, Rel>, tenant: Tenant, original: Id, p: Progress, now: Time, r: RelId)
    requires Sensible(g, tenant, original, p) && after == Split(g, tenant, original, p, now).rels
    requires r.Plain? || r in p.relTo
    ensures r.Plain? && (r in after <==> r in g.rels) && (r in p.relTo ==> r in g.rels)
    ensures r in g.rels && r in p.relTo ==> after[r] == RedirectedRel(r, g.rels[r], tenant, original, p.relTo[r])
    ensures r in g.rels && r !in p.relTo ==> after[r] == g.rels[r]
  {
    assert r in p.relTo ==> RelFits(g, tenant, original, r);
    SplitEdgeAt(g, tenant, original, p, now, r);
  }

  lemma SplitPlacesEdges(g: Graph, after: Graph, tenant: Tenant, original: Id, targets: seq<SplitTarget>,
                         plan: seq<Node>, p: Progress, now: Time)
    requires Sensible(g, tenant, original, p)
    requires |targets| == |plan| && Served(targets, plan, |targets|, p)
    requires after.facts == Given(g.facts, p.factTo, now) && after.rels == Split(g, tenant, original, p, now).rels
    ensures SyntheticEdgesSplit(g, after, tenant, AllFacts(targets))
  {
    TakeAll(targets);
    SyntheticEdgesStay(g, after.rels, tenant, original, p, now, AllFacts(targets));
    MovedAreOwnedOnce(g, after, tenant, original, p, now);
  }

  lemma SyntheticEdgesStay(g: Graph, after: map<RelId, Rel>, tenant: Tenant, original: Id, p: Progress, now: Time,
                           moved: seq<Id>)
    requires Sensible(g, tenant, original, p) && after == Split(g, tenant, original, p, now).rels
    requires forall f :: f in moved <==> f in p.factTo
    ensures forall r: RelId :: r.FactEdge? && r.fact !in moved ==> SameEntry(g.rels, after, r)
    ensures forall r: RelId :: r.SourceEdge? ==>
              (r in after <==> r in g.rels && !(g.rels[r].tenant == tenant && r.source in moved))
    ensures forall r: RelId :: r.SourceEdge? && r in after ==> after[r] == g.rels[r]
  {
    forall r: RelId
      ensures r.FactEdge? && r.fact !in moved ==> SameEntry(g.rels, after, r)
      ensures r.SourceEdge? ==> (r in after <==> r in g.rels && !(g.rels[r].tenant == tenant && r.source in moved))
      ensures r.SourceEdge? && r in after ==> after[r] == g.rels[r]
    {
      SplitEdgeAt(g, tenant, original, p, now, r);
    }
  }

  lemma MovedAreOwnedOnce(g: Graph, after: Graph, tenant: Tenant, original: Id, p: Progress, now: Time)
    requires Sensible(g, tenant, original, p)
    requires after.facts == Given(g.facts, p.factTo, now) && after.rels == Split(g, tenant, original, p, now).rels
    ensures forall f :: f in p.factTo ==> OwnedOnce(after, tenant, f)
  {
    forall f | f in p.factTo ensures OwnedOnce(after, tenant, f) {
      MovedIsOwnedOnce(g, after, tenant, original, p, now, f);
    }
  }

  lemma MovedIsOwnedOnce(g: Graph, after: Graph, tenant: Tenant, original: Id, p: Progress, now: Time, f: Id)
    requires Sensible(g, tenant, original, p) && f in p.factTo
    requires after.facts == Given(g.facts, p.factTo, now) && after.rels == Split(g, tenant, original, p, now).rels
    ensures OwnedOnce(after, tenant, f)
  {
    var owner := p.factTo[f];
    SplitEdgeAt(g, tenant, original, p, now, FactEdge(owner, f));
    forall e | FactEdge(e, f) in after.rels && after.rels[FactEdge(e, f)].tenant == tenant ensures e == owner {
      SplitEdgeAt(g, tenant, original, p, now, FactEdge(e, f));
    }
  }

  /** A fact with one entity edge, from its entity, has one after any split, wherever it went. */
  lemma SplitKeepsOwnership(before: Graph, after: Graph, tenant: Tenant, targets: seq<SplitTarget>, plan: seq<Node>,
                            now: Time, f: Id)
    requires |targets| == |plan| && FactsAreMoved(before.facts, after.facts, targets, plan, now)
    requires SyntheticEdgesSplit(before, after, tenant, AllFacts(targets))
    requires OwnedOnce(before, tenant, f)
    ensures OwnedOnce(after, tenant, f)
  {
    if f !in AllFacts(targets) {
      assert after.facts[f] == before.facts[f];
      assert SameEntry(before.rels, after.rels, FactEdge(before.facts[f].entity, f));
      forall e | FactEdge(e, f) in after.rels && after.rels[FactEdge(e, f)].tenant == tenant
          ensures e == before.facts[f].entity {
        assert SameEntry(before.rels, after.rels, FactEdge(e, f));
      }
    }
  }

  // ---------- the plan is checked and carried out target by target ----------

  ghost predicate LoopFree(g: Graph, rels: seq<RelId>) {
    forall r :: r in rels ==> !IsLoop(g, r)
  }

  lemma LoopFreeSnoc(g: Graph, rels: seq<RelId>, i: nat)
    requires i < |rels|
    ensures LoopFree(g, rels[..i + 1]) <==> LoopFree(g, rels[..i]) && !IsLoop(g, rels[i])
    ensures LoopFree(g, rels) ==> LoopFree(g, rels[..i + 1])
  {
    TakeOneMore(rels, i);
  }

  lemma ListedRelIsOpen(g: Graph, tenant: Tenant, original: Id, rels: seq<RelId>, p: Progress, i: nat)
    requires RelsFit(g, tenant, original, rels) && Elements(rels) !! p.relTo.Keys && i < |rels|
    ensures RelFits(g, tenant, original, rels[i]) && rels[i] !in p.relTo
  {
    assert rels[i] in rels && rels[i] in Elements(rels);
  }

  ghost predicate NoListedLoop(g: Graph, targets: seq<SplitTarget>) {
    LoopFree(g, AllRels(targets))
  }

  ghost predicate Fits(g: Graph, tenant: Tenant, original: Id, facts: seq<Id>) {
    forall f :: f in facts ==> FactFits(g, tenant, original, f)
  }

  ghost predicate RelsFit(g: Graph, tenant: Tenant, original: Id, rels: seq<RelId>) {
    forall r :: r in rels ==> RelFits(g, tenant, original, r)
  }

  ghost predicate TargetsFit(g: Graph, tenant: Tenant, original: Id, targets: seq<SplitTarget>, n: nat)
    requires n <= |targets|
  {
    && (forall k :: 0 <= k < n ==> !IsBlank(targets[k].name))
    && NoRepeats(AllFacts(targets[..n])) && Fits(g, tenant, original, AllFacts(targets[..n]))
    && NoRepeats(AllRels(targets[..n])) && RelsFit(g, tenant, original, AllRels(targets[..n]))
  }

  lemma TargetsFitSnoc(g: Graph, tenant: Tenant, original: Id, targets: seq<SplitTarget>, k: nat)
    requires k < |targets| && TargetsFit(g, tenant, original, targets, k) && !IsBlank(targets[k].name)
    requires NoRepeats(AllFacts(targets[..k]) + targets[k].facts) && Fits(g, tenant, original, targets[k].facts)
    requires NoRepeats(AllRels(targets[..k]) + targets[k].rels) && RelsFit(g, tenant, original, targets[k].rels)
    ensures TargetsFit(g, tenant, original, targets, k + 1)
  {
    ListedSoFar(targets, k);
  }

  lemma PrefixKeepsNoRepeats<T(!new)>(s: seq<T>, whole: seq<T>)
    requires s <= whole && NoRepeats(whole)
    ensures NoRepeats(s)
  {
    assert forall i :: 0 <= i < |s| ==> s[i] == whole[i];
  }

  /** A bad fact list of one target makes the whole split invalid. */
  lemma RejectsFacts(g: Graph, tenant: Tenant, original: Id, targets: seq<SplitTarget>, k: nat)
    requires k < |targets|
    requires !(NoRepeats(AllFacts(targets[..k]) + targets[k].facts) && Fits(g, tenant, original, targets[k].facts))
    ensures !SplitOk(g, tenant, original, targets)
  {
    ListedSoFar(targets, k);
    FactListedSomewhere(targets);
    if NoRepeats(AllFacts(targets)) {
      PrefixKeepsNoRepeats(AllFacts(targets[..k]) + targets[k].facts, AllFacts(targets));
    }
  }

  lemma RejectsRels(g: Graph, tenant: Tenant, original: Id, targets: seq<SplitTarget>, k: nat)
    requires k < |targets|
    requires !(NoRepeats(AllRels(targets[..k]) + targets[k].rels) && RelsFit(g, tenant, original, targets[k].rels))
    ensures !SplitOk(g, tenant, original, targets)
  {
    ListedSoFar(targets, k);
    RelListedSomewhere(targets);
    if NoRepeats(AllRels(targets)) {
      PrefixKeepsNoRepeats(AllRels(targets[..k]) + targets[k].rels, AllRels(targets));
    }
  }

  /** What a valid split says about one target's lists. */
  lemma PartsOfPlan(g: Graph, tenant: Tenant, original: Id, targets: seq<SplitTarget>, k: nat)
    requires SplitOk(g, tenant, original, targets) && k < |targets|
    ensures NoRepeats(targets[k].facts) && Fits(g, tenant, original, targets[k].facts)
    ensures NoRepeats(targets[k].rels) && RelsFit(g, tenant, original, targets[k].rels)
    ensures Elements(targets[k].facts) !! Elements(AllFacts(targets[..k]))
    ensures Elements(targets[k].rels) !! Elements(AllRels(targets[..k]))
  {
    ListedSoFar(targets, k);
    FactListedSomewhere(targets);
    RelListedSomewhere(targets);
    PrefixKeepsNoRepeats(AllFacts(targets[..k]) + targets[k].facts, AllFacts(targets));
    PrefixKeepsNoRepeats(AllRels(targets[..k]) + targets[k].rels, AllRels(targets));
    TailHasNoRepeats(AllFacts(targets[..k]), targets[k].facts);
    TailHasNoRepeats(AllRels(targets[..k]), targets[k].rels);
  }

  lemma TailHasNoRepeats<T(!new)>(a: seq<T>, b: seq<T>)
    requires NoRepeats(a + b)
    ensures NoRepeats(b) && Elements(a) !! Elements(b)
  {
    forall i, j | 0 <= i < j < |b| ensures b[i] != b[j] {
      assert (a + b)[|a| + i] == b[i] && (a + b)[|a| + j] == b[j];
    }
    forall i, j | 0 <= i < |a| && 0 <= j < |b| ensures a[i] != b[j] {
      assert (a + b)[i] == a[i] && (a + b)[|a| + j] == b[j];
    }
  }

  lemma LoopsSoFar(g: Graph, targets: seq<SplitTarget>, k: nat)
    requires k < |targets|
    ensures NoListedLoop(g, targets[..k + 1]) <==> NoListedLoop(g, targets[..k]) && LoopFree(g, targets[k].rels)
    ensures NoListedLoop(g, targets) ==> NoListedLoop(g, targets[..k + 1])
  {
    ListedSoFar(targets, k);
    assert forall r :: r in AllRels(targets[..k + 1]) ==> r in AllRels(targets);
  }

  lemma ServedKeys(targets: seq<SplitTarget>, plan: seq<Node>, k: nat, p: Progress)
    requires k < |targets| == |plan| && Served(targets, plan, k, p)
    ensures var q := Halfway(p, targets[k], plan[k], |targets[k].rels|);
            && q.added.Keys == PlanIds(plan[..k + 1])
            && q.factTo.Keys == Elements(AllFacts(targets[..k + 1]))
            && q.relTo.Keys == Elements(AllRels(targets[..k + 1]))
  {
    ListedSoFar(targets, k);
    TakeOneMore(plan, k);
    TakeAll(targets[k].rels);
    PlanIdsSnoc(plan[..k], plan[k]);
    ElementsOfConcat(AllFacts(targets[..k]), targets[k].facts);
    ElementsOfConcat(AllRels(targets[..k]), targets[k].rels);
  }

  lemma StillServed(targets: seq<SplitTarget>, plan: seq<Node>, k: nat, p: Progress, i: nat)
    requires k < |targets| == |plan| && Served(targets, plan, k, p) && i <= k
    requires i < k ==> plan[i].id != plan[k].id
    requires Elements(targets[k].facts) !! p.factTo.Keys && Elements(targets[k].rels) !! p.relTo.Keys
    ensures ServedOne(targets, plan, i, Halfway(p, targets[k], plan[k], |targets[k].rels|))
  {
    TakeAll(targets[k].rels);
    if i < k {
      assert ServedOne(targets, plan, i, p);
    }
  }

  lemma ServedOneMore(targets: seq<SplitTarget>, plan: seq<Node>, k: nat, p: Progress)
    requires k < |targets| == |plan| && Served(targets, plan, k, p)
    requires forall i :: 0 <= i < k ==> plan[i].id != plan[k].id
    requires Elements(targets[k].facts) !! p.factTo.Keys && Elements(targets[k].rels) !! p.relTo.Keys
    ensures Served(targets, plan, k + 1, Halfway(p, targets[k], plan[k], |targets[k].rels|))
  {
    ServedKeys(targets, plan, k, p);
    forall i | 0 <= i < k + 1
      ensures ServedOne(targets, plan, i, Halfway(p, targets[k], plan[k], |targets[k].rels|))
    {
      StillServed(targets, plan, k, p, i);
    }
  }

  lemma FreshInPlan(plan: seq<Node>, k: nat, p: Progress)
    requires k < |plan| && p.added.Keys == PlanIds(plan[..k])
    requires forall i :: 0 <= i < k ==> plan[i].id != plan[k].id
    ensures plan[k].id !in p.added
  {}

  lemma NodesPlaced(g: Graph, after: map<Id, Node>, original: Node, targets: seq<SplitTarget>, plan: seq<Node>,
                    p: Progress, now: Time)
    requires |targets| == |plan| && Served(targets, plan, |targets|, p)
    requires original.id in g.nodes && original.id !in p.added
    requires after == (g.nodes + p.added)[original.id := original.(status := Superseded, updatedAt := now)]
    requires forall n :: n in p.added ==> n !in g.nodes
    ensures NodesSplit(g, g.(nodes := after), original, plan, now)
  {
    TakeAll(plan);
    forall k | 0 <= k < |plan| ensures plan[k].id in p.added && p.added[plan[k].id] == plan[k] {
      assert ServedOne(targets, plan, k, p);
    }
  }

  // ---------- a split that meets a self-loop ----------

  /** The progress when one more target has its node, its facts and its first `i` relationships. */
  function Halfway(p: Progress, target: SplitTarget, node: Node, i: nat): Progress
    requires i <= |target.rels|
  {
    WithRelsTo(WithFactsTo(p.(added := p.added[node.id := node]), target.facts, node.id), target.rels[..i], node.id)
  }

  function ServedUpTo(targets: seq<SplitTarget>, plan: seq<Node>, n: nat): Progress
    requires n <= |targets| == |plan|
  {
    if n == 0 then NOTHING else Halfway(ServedUpTo(targets, plan, n - 1), targets[n - 1], plan[n - 1],
                                        |targets[n - 1].rels|)
  }

  /** The graph with the reassignments in `p` made and the self-loop deleted. */
  ghost predicate StoppedOn(g: Graph, after: Graph, tenant: Tenant, original: Id, p: Progress, now: Time, loop: RelId) {
    && Sensible(g, tenant, original, p)
    && var split := Split(g, tenant, original, p, now); after == split.(rels := split.rels - {loop})
  }

  /** Position i of target k is the first listed self-loop. */
  ghost predicate IsFirstLoop(g: Graph, targets: seq<SplitTarget>, k: nat, i: nat) {
    && k < |targets| && i < |targets[k].rels|
    && NoListedLoop(g, targets[..k]) && LoopFree(g, targets[k].rels[..i]) && IsLoop(g, targets[k].rels[i])
  }

  ghost predicate LeftAt(g: Graph, after: Graph, tenant: Tenant, original: Id, targets: seq<SplitTarget>,
                         plan: seq<Node>,
                         now: Time, k: nat, i: nat)
    requires |targets| == |plan|
  {
    && IsFirstLoop(g, targets, k, i)
    && StoppedOn(g, after, tenant, original, Halfway(ServedUpTo(targets, plan, k), targets[k], plan[k], i), now,
                 targets[k].rels[i])
  }

  /** Everything before the first listed self-loop was carried out, and the self-loop itself is gone. */
  ghost predicate LeftHalfway(g: Graph, after: Graph, tenant: Tenant, original: Id, targets: seq<SplitTarget>,
                              plan: seq<Node>,
                              now: Time)
    requires |targets| == |plan|
  {
    exists k: nat, i: nat :: LeftAt(g, after, tenant, original, targets, plan, now, k, i)
  }

  lemma {:induction false} FirstIsServed(targets: seq<SplitTarget>, plan: seq<Node>, n: nat)
    requires 0 < n <= |targets| == |plan|
    ensures plan[0].id in ServedUpTo(targets, plan, n).added
  {
    if n > 1 { FirstIsServed(targets, plan, n - 1); }
  }

  /** A failed split shows: the first target's node is there, the original is as it was, and a listed edge is lost. */
  lemma HalfwayShows(g: Graph, after: Graph, tenant: Tenant, original: Node, targets: seq<SplitTarget>, plan: seq<Node>,
                     now: Time)
      returns (lost: RelId)
    requires Planned(g, tenant, original, targets, plan, now) && original.id in g.nodes
    requires LeftHalfway(g, after, tenant, original.id, targets, plan, now)
    ensures plan != [] && plan[0].id in after.nodes && plan[0].id !in g.nodes
    ensures original.id in after.nodes && after.nodes[original.id] == g.nodes[original.id]
    ensures lost in AllRels(targets) && IsLoop(g, lost) && lost !in after.rels
  {
    var k: nat, i: nat :| LeftAt(g, after, tenant, original.id, targets, plan, now, k, i);
    if k > 0 { FirstIsServed(targets, plan, k); }
    var p := Halfway(ServedUpTo(targets, plan, k), targets[k], plan[k], i);
    lost := targets[k].rels[i];
    RelListedSomewhere(targets);
    assert after.nodes == g.nodes + p.added;
    assert original.id in KnownIds(g);
  }

  lemma ListsOfOne(target: SplitTarget)
    ensures AllFacts([target]) == target.facts && AllRels([target]) == target.rels
  {
    assert [target][..0] == [];
    assert [] + target.facts == target.facts && [] + target.rels == target.rels;
  }

  /** Listing one of its own loops is a split of an entity that the validation accepts. */
  lemma LoopPassesValidation(g: Graph, tenant: Tenant, original: Id, loop: RelId, name: string)
    requires original in g.nodes && g.nodes[original].tenant == tenant && !IsBlank(name)
    requires IsLoop(g, loop) && RelFits(g, tenant, original, loop)
    ensures var targets := [SplitTarget(name, [], [], [loop])];
            SplitOk(g, tenant, original, targets) && !NoListedLoop(g, targets)
  {
    ListsOfOne(SplitTarget(name, [], [], [loop]));
    assert loop in [loop];
  }
}
