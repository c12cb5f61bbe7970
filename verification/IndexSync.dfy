/** Why incremental index updates end where a rebuild would: one lemma per way the graph changes. */
module IndexSync {
  import opened Common
  import opened GraphModel
  import opened GraphStore
  import opened ResolutionRuns
  import opened ResolutionTheorems
  import opened EntityResolution
  import opened Supersession
  import opened IngestRuns
  import opened SearchIndex

  /** A node ingest, with its supported facts synced again, is right unless it strands another tenant's document. */
  lemma NodeIngestSyncs(docs: map<DocKey, Resource>, g: Graph, node: Node, facts: seq<Fact>, supported: set<Id>)
    requires InSync(docs, g)
    requires Copies(facts, g.facts, supported)
    requires forall f :: f in supported ==> f in g.facts && g.facts[f].tenant == node.tenant
    ensures InSync(SyncedFacts(SyncedNode(docs, node), facts), WithNode(g, node)) <==> !StrandsNode(g, node)
  {
    NodeUpsertSyncs(docs, g, node);
    if StrandsNode(g, node) {
      var key := (g.nodes[node.id].tenant, NodeDoc(node.id));
      SyncFactsElsewhere(SyncedNode(docs, node), node.tenant, facts, key);
      assert Lookup(docs, key) == Expected(g, key);
    } else {
      assert InSyncBut(SyncedNode(docs, node), WithNode(g, node), node.tenant, {});
      SyncFactsCloses(SyncedNode(docs, node), WithNode(g, node), node.tenant, {}, facts);
    }
  }

  lemma {:induction false} WeighingKeepsNodes(g: Graph, incoming: Fact, priors: seq<Fact>, authority: Authority,
                                              clock: Time)
    ensures WeighAll(g, incoming, priors, authority, clock).g.nodes == g.nodes
  {
    if priors != [] { WeighingKeepsNodes(g, incoming, priors[..|priors| - 1], authority, clock); }
  }

  function FactsOf(facts: map<Id, Fact>, tenant: Tenant, entity: Id): set<Id> {
    set f | f in facts && facts[f].tenant == tenant && facts[f].entity == entity
  }

  /** A detection changes only facts of the new fact's own entity, apart from a stranded one. */
  lemma DetectionStaysInEntity(g: Graph, incoming: Fact, priors: seq<Fact>, authority: Authority, clock: Time,
                               key: DocKey)
    requires g.Keyed() && ListsRivals(priors, g.facts, incoming)
    requires !(key.0 == incoming.tenant && key.1.FactDoc?
               && key.1.id in FactsOf(Detected(g, incoming, priors, authority, clock).facts, incoming.tenant,
                                      incoming.entity))
    requires key != (StrandedTenant(g, incoming), FactDoc(incoming.id))
    ensures Expected(Detected(g, incoming, priors, authority, clock), key) == Expected(g, key)
  {
    var after := Detected(g, incoming, priors, authority, clock);
    var w := WeighAll(g, incoming, priors, authority, clock);
    WeighingKeepsNodes(g, incoming, priors, authority, clock);
    PendingKeepsFacts(WithFact(w.g, w.incoming), w.pending);
    if key.1.FactDoc? {
      DetectedFact(g, incoming, priors, authority, clock, key.1.id);
      WeighedClaim(g, incoming, priors, authority, clock);
    }
  }

  /** The tenant whose fact the new one replaces; its own tenant when there is none. */
  function StrandedTenant(g: Graph, fact: Fact): Tenant {
    if StrandsFact(g, fact) then g.facts[fact.id].tenant else fact.tenant
  }

  lemma FactIngestSyncs(docs: map<DocKey, Resource>, g: Graph, incoming: Fact, priors: seq<Fact>, authority: Authority,
                        clock: Time, facts: seq<Fact>)
    requires g.Keyed() && InSync(docs, g) && ListsRivals(priors, g.facts, incoming)
    requires var after := Detected(g, incoming, priors, authority, clock).facts;
             Copies(facts, after, FactsOf(after, incoming.tenant, incoming.entity))
    ensures InSync(SyncedFacts(docs, facts), Detected(g, incoming, priors, authority, clock))
            <==> !StrandsFact(g, incoming)
  {
    var after := Detected(g, incoming, priors, authority, clock);
    var ids := FactsOf(after.facts, incoming.tenant, incoming.entity);
    var open: set<DocId> := set f | f in ids :: FactDoc(f);
    DetectedFact(g, incoming, priors, authority, clock, incoming.id);
    WeighedClaim(g, incoming, priors, authority, clock);
    if StrandsFact(g, incoming) {
      var key := (g.facts[incoming.id].tenant, FactDoc(incoming.id));
      SyncFactsElsewhere(docs, incoming.tenant, facts, key);
      assert Lookup(docs, key) == Expected(g, key);
      assert Expected(after, key) == None;
    } else {
      assert incoming.id in ids;
      forall key: DocKey | !(key.0 == incoming.tenant && key.1 in open)
        ensures Lookup(docs, key) == Expected(after, key)
      {
        assert key.1.FactDoc? && key.1.id in ids ==> FactDoc(key.1.id) in open;
        DetectionStaysInEntity(g, incoming, priors, authority, clock, key);
      }
      SyncFactsCloses(docs, after, incoming.tenant, open, facts);
      var closed := set k | 0 <= k < |facts| :: FactDoc(facts[k].id);
      forall d | d in open ensures d in closed {
        assert HasCopy(facts, d.id);
      }
      assert open - closed == {};
    }
  }

  /** A pass without merges changes neither nodes nor facts. */
  lemma {:induction false} LinksOnlyKeepRows(g: Graph, tenant: Tenant, steps: seq<Step>, now: Time)
    requires CountMerges(steps) == 0
    ensures Run(g, tenant, steps, now).nodes == g.nodes && Run(g, tenant, steps, now).facts == g.facts
  {
    if steps != [] { LinksOnlyKeepRows(g, tenant, steps[..|steps| - 1], now); }
  }

  /** A pass never touches the nodes and facts of other tenants. */
  lemma PassStaysInTenant(g: Graph, after: Graph, tenant: Tenant, steps: seq<Step>, key: DocKey)
    requires g.Keyed() && Quotient(g, after, tenant, Candidates(g, tenant), steps) && key.0 != tenant
    ensures Expected(after, key) == Expected(g, key)
  {}

  // ---------- corrections ----------

  /** Rewriting one stored fact of the tenant opens its document only. */
  lemma FactRewriteSyncs(docs: map<DocKey, Resource>, g: Graph, fact: Fact)
    requires InSync(docs, g)
    requires fact.id in g.facts ==> g.facts[fact.id].tenant == fact.tenant
    ensures InSync(SyncedFact(docs, fact), WithFact(g, fact))
  {
    FactUpsertSyncs(docs, g, fact);
  }

  lemma NodeRewriteSyncs(docs: map<DocKey, Resource>, g: Graph, node: Node)
    requires InSync(docs, g)
    requires node.id in g.nodes ==> g.nodes[node.id].tenant == node.tenant
    ensures InSync(SyncedNode(docs, node), WithNode(g, node))
  {
    NodeUpsertSyncs(docs, g, node);
  }

  /** After a merge, syncing both nodes and the moved facts closes everything the merge opened. */
  lemma MergeSyncs(docs: map<DocKey, Resource>, g: Graph, canonical: Node, duplicate: Node, aliases: seq<string>,
                   mergeId: Id, mergeRel: Rel, now: Time, facts: seq<Fact>)
    requires g.Keyed() && InSync(docs, g)
    requires canonical.id in g.nodes && g.nodes[canonical.id].tenant == canonical.tenant
    requires duplicate.id in g.nodes && g.nodes[duplicate.id].tenant == duplicate.tenant == canonical.tenant
    requires canonical.id != duplicate.id && canonical.aliases == aliases && duplicate.status == Superseded
    requires Copies(facts, Merged(g, canonical, duplicate, aliases, mergeId, mergeRel, now).facts,
                    MovedFacts(g.facts, canonical.tenant, duplicate.id))
    ensures InSync(SyncedFacts(SyncedNode(SyncedNode(docs, canonical), duplicate), facts),
                   Merged(g, canonical, duplicate, aliases, mergeId, mergeRel, now))
  {
    var after := Merged(g, canonical, duplicate, aliases, mergeId, mergeRel, now);
    var moved := MovedFacts(g.facts, canonical.tenant, duplicate.id);
    var open := {NodeDoc(canonical.id), NodeDoc(duplicate.id)} + set f | f in moved :: FactDoc(f);
    forall key: DocKey | !(key.0 == canonical.tenant && key.1 in open)
      ensures Lookup(docs, key) == Expected(after, key)
    {
      assert Lookup(docs, key) == Expected(g, key);
      assert key.1.FactDoc? && key.1.id in moved ==> FactDoc(key.1.id) in open;
    }
    SyncNodeCloses(docs, after, canonical.tenant, open, canonical);
    SyncNodeCloses(SyncedNode(docs, canonical), after, canonical.tenant, open - {NodeDoc(canonical.id)}, duplicate);
    var left := open - {NodeDoc(canonical.id)} - {NodeDoc(duplicate.id)};
    SyncFactsCloses(SyncedNode(SyncedNode(docs, canonical), duplicate), after, canonical.tenant, left, facts);
    var closed := set k | 0 <= k < |facts| :: FactDoc(facts[k].id);
    forall d | d in left ensures d in closed {
      assert HasCopy(facts, d.id);
    }
    assert left - closed == {};
  }

  /** Reassigning a fact opens its own document only. */
  lemma ReassignedFactSyncs(docs: map<DocKey, Resource>, g: Graph, f: Id, tenant: Tenant, owner: Id, now: Time)
    requires g.Keyed() && InSync(docs, g) && CanReassignFact(g, f, tenant, owner)
    ensures var after := FactReassigned(g, f, tenant, owner, now); InSync(SyncedFact(docs, after.facts[f]), after)
  {
    var after := FactReassigned(g, f, tenant, owner, now);
    assert InSyncBut(docs, after, tenant, {FactDoc(f)});
    SyncFactCloses(docs, after, tenant, {FactDoc(f)}, after.facts[f]);
  }

  // ---------- rows stay under their own ids ----------

  lemma WithFactIsKeyed(g: Graph, fact: Fact)
    requires g.Keyed()
    ensures WithFact(g, fact).Keyed()
  {}

  lemma {:induction false} WeighingIsKeyed(g: Graph, incoming: Fact, priors: seq<Fact>, authority: Authority,
                                           clock: Time)
    requires g.Keyed()
    ensures WeighAll(g, incoming, priors, authority, clock).g.Keyed()
    ensures WeighAll(g, incoming, priors, authority, clock).incoming.id == incoming.id
  {
    if priors != [] {
      var init, prior := priors[..|priors| - 1], priors[|priors| - 1];
      WeighingIsKeyed(g, incoming, init, authority, clock);
      var w := WeighAll(g, incoming, init, authority, clock);
      WithFactIsKeyed(w.g, Overruled(prior, w.incoming));
      WithFactIsKeyed(w.g, prior.(status := Contradicted));
    }
  }

  lemma {:induction false} PendingIsKeyed(g: Graph, pending: seq<Rel>)
    requires g.Keyed()
    ensures WithPending(g, pending).Keyed()
  {
    if pending != [] { PendingIsKeyed(g, pending[..|pending| - 1]); }
  }

  lemma DetectedIsKeyed(g: Graph, incoming: Fact, priors: seq<Fact>, authority: Authority, clock: Time)
    requires g.Keyed()
    ensures Detected(g, incoming, priors, authority, clock).Keyed()
  {
    var w := WeighAll(g, incoming, priors, authority, clock);
    WeighingIsKeyed(g, incoming, priors, authority, clock);
    WithFactIsKeyed(w.g, w.incoming);
    PendingIsKeyed(WithFact(w.g, w.incoming), w.pending);
  }

  lemma ReassignedIsKeyed(g: Graph, f: Id, tenant: Tenant, owner: Id, now: Time)
    requires g.Keyed() && CanReassignFact(g, f, tenant, owner)
    ensures FactReassigned(g, f, tenant, owner, now).Keyed()
  {}

  /** Synthetic edges carry their endpoints in their id. */
  ghost predicate EdgesKeyed(rels: map<RelId, Rel>) {
    && (forall e, f :: FactEdge(e, f) in rels ==> rels[FactEdge(e, f)].src == e && rels[FactEdge(e, f)].dst == f)
    && (forall f, s :: SourceEdge(f, s) in rels ==> rels[SourceEdge(f, s)].src == f && rels[SourceEdge(f, s)].dst == s)
  }

  lemma RehomedIsKeyed(rels: map<RelId, Rel>, facts: map<Id, Fact>, moved: set<Id>, to: Id)
    requires EdgesKeyed(rels) && moved <= facts.Keys && forall f :: f in facts ==> facts[f].id == f
    ensures EdgesKeyed(RehomedEdges(rels, facts, moved, to))
  {}

  lemma RewiredIsKeyed(rels: map<RelId, Rel>, tenant: Tenant, from: Id, to: Id, mergeId: Id, mergeRel: Rel)
    requires EdgesKeyed(rels)
    ensures EdgesKeyed(Rewired(rels, tenant, from, to)[Plain(mergeId) := mergeRel])
  {}

  lemma MergeIsKeyed(g: Graph, canonical: Node, duplicate: Node, aliases: seq<string>, mergeId: Id, mergeRel: Rel,
                     now: Time)
    requires g.Keyed()
    ensures Merged(g, canonical, duplicate, aliases, mergeId, mergeRel, now).Keyed()
  {
    var moved := MovedFacts(g.facts, canonical.tenant, duplicate.id);
    var edges := RehomedEdges(g.rels, g.facts, moved, canonical.id);
    RehomedIsKeyed(g.rels, g.facts, moved, canonical.id);
    RewiredIsKeyed(edges, canonical.tenant, duplicate.id, canonical.id, mergeId, mergeRel);
  }
}
