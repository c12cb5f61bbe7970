/** The search documents derived from nodes and facts, and what it means for the index to match the graph.
    Permission labels and embeddings are not part of a document here. */
module SearchIndex {
  import opened Common
  import opened GraphModel
  import opened GraphStore
  import opened VectorStore

  datatype DocId = NodeDoc(id: Id) | FactDoc(id: Id)

  type DocKey = (Tenant, DocId)

  datatype Resource =
    | NodeResource(typ: NodeType, name: string, aliases: seq<string>, details: string, sourceId: Id, status: Status)
    | FactResource(attribute: string, value: Value, details: string, entity: Id, source: Id, status: Status)

  function NodeDocument(n: Node): Resource {
    NodeResource(n.typ, n.name, n.aliases, n.details, n.sourceId, n.status)
  }

  function FactDocument(f: Fact): Resource {
    FactResource(f.attribute, f.value, f.details, f.entity, f.source, f.status)
  }

  /** What a full rebuild from the graph would store under the key. */
  function Expected(g: Graph, key: DocKey): Option<Resource> {
    match key.1
    case NodeDoc(n) =>
      if n in g.nodes && g.nodes[n].tenant == key.0 && g.nodes[n].status == Current then Some(NodeDocument(g.nodes[n]))
          else None
    case FactDoc(f) =>
      if f in g.facts && g.facts[f].tenant == key.0 && g.facts[f].status == Current then Some(FactDocument(g.facts[f]))
          else None
  }

  function Lookup(docs: map<DocKey, Resource>, key: DocKey): Option<Resource> {
    if key in docs then Some(docs[key]) else None
  }

  // ---------- what documents say, field by field ----------

  /** The document of a fact carries what the fact says. */
  predicate DocumentSays(documents: map<DocKey, Resource>, f: Fact) {
    (f.tenant, FactDoc(f.id)) in documents && var d := documents[(f.tenant, FactDoc(f.id))];
    d.FactResource? && d.value == f.value && d.attribute == f.attribute && d.entity == f.entity && d.source == f.source
    && d.details == f.details && d.status == f.status
  }

  predicate NodeDocumentSays(documents: map<DocKey, Resource>, n: Node) {
    (n.tenant, NodeDoc(n.id)) in documents && var d := documents[(n.tenant, NodeDoc(n.id))];
    d.NodeResource? && d.typ == n.typ && d.name == n.name && d.aliases == n.aliases && d.sourceId == n.sourceId
    && d.details == n.details && d.status == n.status
  }

  /** The tenant has one document for each current node and fact of its own, which says what the row says. */
  ghost predicate IsRebuilt(documents: map<DocKey, Resource>, g: Graph, tenant: Tenant) {
    && (forall n :: (tenant, NodeDoc(n)) in documents <==>
          n in g.nodes && g.nodes[n].tenant == tenant && g.nodes[n].status == Current)
    && (forall f :: (tenant, FactDoc(f)) in documents <==>
          f in g.facts && g.facts[f].tenant == tenant && g.facts[f].status == Current)
    && (forall n :: n in g.nodes && g.nodes[n].tenant == tenant && g.nodes[n].status == Current ==>
          NodeDocumentSays(documents, g.nodes[n]))
    && (forall f :: f in g.facts && g.facts[f].tenant == tenant && g.facts[f].status == Current ==>
          DocumentSays(documents, g.facts[f]))
  }

  lemma ExpectedIsRebuilt(documents: map<DocKey, Resource>, g: Graph, tenant: Tenant)
    requires g.Keyed() && forall key: DocKey :: key.0 == tenant ==> Lookup(documents, key) == Expected(g, key)
    ensures IsRebuilt(documents, g, tenant)
  {
    forall n ensures Lookup(documents, (tenant, NodeDoc(n))) == Expected(g, (tenant, NodeDoc(n))) {}
    forall f ensures Lookup(documents, (tenant, FactDoc(f))) == Expected(g, (tenant, FactDoc(f))) {}
  }

  /** The index is what a rebuild would produce, for every tenant. */
  ghost predicate InSync(docs: map<DocKey, Resource>, g: Graph) {
    forall key: DocKey :: Lookup(docs, key) == Expected(g, key)
  }

  /** The same, except for the tenant's documents in `open`. */
  ghost predicate InSyncBut(docs: map<DocKey, Resource>, g: Graph, tenant: Tenant, open: set<DocId>) {
    forall key: DocKey :: !(key.0 == tenant && key.1 in open) ==> Lookup(docs, key) == Expected(g, key)
  }

  function SyncedNode(docs: map<DocKey, Resource>, node: Node): map<DocKey, Resource> {
    if node.status != Current then docs - {(node.tenant, NodeDoc(node.id))}
    else docs[(node.tenant, NodeDoc(node.id)) := NodeDocument(node)]
  }

  function SyncedFact(docs: map<DocKey, Resource>, fact: Fact): map<DocKey, Resource> {
    if fact.status != Current then docs - {(fact.tenant, FactDoc(fact.id))}
    else docs[(fact.tenant, FactDoc(fact.id)) := FactDocument(fact)]
  }

  /** Edges are not indexed. */
  lemma EdgesAreNotIndexed(docs: map<DocKey, Resource>, g: Graph, h: Graph)
    requires InSync(docs, g) && h.nodes == g.nodes && h.facts == g.facts
    ensures InSync(docs, h)
  {
    forall key: DocKey ensures Lookup(docs, key) == Expected(h, key) {
      assert Lookup(docs, key) == Expected(g, key);
    }
  }

  // ---------- one sync ----------

  lemma SyncNodeCloses(docs: map<DocKey, Resource>, g: Graph, tenant: Tenant, open: set<DocId>, node: Node)
    requires InSyncBut(docs, g, tenant, open)
    requires node.id in g.nodes && g.nodes[node.id].tenant == node.tenant == tenant
    requires node.status == g.nodes[node.id].status && NodeDocument(node) == NodeDocument(g.nodes[node.id])
    ensures InSyncBut(SyncedNode(docs, node), g, tenant, open - {NodeDoc(node.id)})
  {}

  lemma SyncFactCloses(docs: map<DocKey, Resource>, g: Graph, tenant: Tenant, open: set<DocId>, fact: Fact)
    requires InSyncBut(docs, g, tenant, open)
    requires fact.id in g.facts && g.facts[fact.id].tenant == fact.tenant == tenant
    requires fact.status == g.facts[fact.id].status && FactDocument(fact) == FactDocument(g.facts[fact.id])
    ensures InSyncBut(SyncedFact(docs, fact), g, tenant, open - {FactDoc(fact.id)})
  {}

  function SyncedFacts(docs: map<DocKey, Resource>, facts: seq<Fact>): map<DocKey, Resource> {
    if facts == [] then docs else SyncedFact(SyncedFacts(docs, facts[..|facts| - 1]), facts[|facts| - 1])
  }

  /** Copies, as stored, of exactly the facts in `ids`. */
  ghost predicate Copies(facts: seq<Fact>, table: map<Id, Fact>, ids: set<Id>) {
    && (forall k :: 0 <= k < |facts| ==> facts[k].id in ids && facts[k].id in table && facts[k] == table[facts[k].id])
    && (forall f :: f in ids ==> HasCopy(facts, f))
  }

  ghost predicate HasCopy(facts: seq<Fact>, f: Id) {
    exists k :: 0 <= k < |facts| && facts[k].id == f
  }

  /** Syncing a list of facts closes every document of the list. */
  lemma {:induction false} SyncFactsCloses(docs: map<DocKey, Resource>, g: Graph, tenant: Tenant, open: set<DocId>,
                                           facts: seq<Fact>)
    requires InSyncBut(docs, g, tenant, open)
    requires forall k :: 0 <= k < |facts| ==>
               facts[k].tenant == tenant && facts[k].id in g.facts && facts[k] == g.facts[facts[k].id]
    ensures InSyncBut(SyncedFacts(docs, facts), g, tenant, open - (set k | 0 <= k < |facts| :: FactDoc(facts[k].id)))
  {
    if facts != [] {
      var n := |facts| - 1;
      var closed := set k | 0 <= k < n :: FactDoc(facts[k].id);
      SyncFactsCloses(docs, g, tenant, open, facts[..n]);
      assert (set k | 0 <= k < n :: FactDoc(facts[..n][k].id)) == closed;
      assert (set k | 0 <= k < |facts| :: FactDoc(facts[k].id)) == closed + {FactDoc(facts[n].id)};
      SyncFactCloses(SyncedFacts(docs, facts[..n]), g, tenant, open - closed, facts[n]);
      assert open - closed - {FactDoc(facts[n].id)} == open - (closed + {FactDoc(facts[n].id)});
    }
  }

  /** Syncing facts of one tenant leaves the documents of all others alone. */
  lemma {:induction false} SyncFactsElsewhere(docs: map<DocKey, Resource>, tenant: Tenant, facts: seq<Fact>,
                                              key: DocKey)
    requires forall k :: 0 <= k < |facts| ==> facts[k].tenant == tenant
    requires key.0 != tenant || key.1.NodeDoc?
    ensures Lookup(SyncedFacts(docs, facts), key) == Lookup(docs, key)
  {
    if facts != [] { SyncFactsElsewhere(docs, tenant, facts[..|facts| - 1], key); }
  }

  /** The id was a current node of another tenant: storing it here strands that tenant's document. */
  predicate StrandsNode(g: Graph, node: Node) {
    node.id in g.nodes && g.nodes[node.id].tenant != node.tenant && g.nodes[node.id].status == Current
  }

  predicate StrandsFact(g: Graph, fact: Fact) {
    fact.id in g.facts && g.facts[fact.id].tenant != fact.tenant && g.facts[fact.id].status == Current
  }

  /** Storing and syncing a node keeps the index right exactly when no other tenant's document is stranded. */
  lemma NodeUpsertSyncs(docs: map<DocKey, Resource>, g: Graph, node: Node)
    requires InSync(docs, g)
    ensures InSync(SyncedNode(docs, node), WithNode(g, node)) <==> !StrandsNode(g, node)
  {
    if StrandsNode(g, node) {
      var key := (g.nodes[node.id].tenant, NodeDoc(node.id));
      assert Lookup(docs, key) == Expected(g, key);
      assert Lookup(SyncedNode(docs, node), key) != Expected(WithNode(g, node), key);
    } else {
      assert InSyncBut(docs, WithNode(g, node), node.tenant, {NodeDoc(node.id)});
      SyncNodeCloses(docs, WithNode(g, node), node.tenant, {NodeDoc(node.id)}, node);
    }
  }

  lemma FactUpsertSyncs(docs: map<DocKey, Resource>, g: Graph, fact: Fact)
    requires InSync(docs, g)
    ensures InSync(SyncedFact(docs, fact), WithFact(g, fact)) <==> !StrandsFact(g, fact)
  {
    if StrandsFact(g, fact) {
      var key := (g.facts[fact.id].tenant, FactDoc(fact.id));
      assert Lookup(docs, key) == Expected(g, key);
      assert Lookup(SyncedFact(docs, fact), key) != Expected(WithFact(g, fact), key);
    } else {
      assert InSyncBut(docs, WithFact(g, fact), fact.tenant, {FactDoc(fact.id)});
      SyncFactCloses(docs, WithFact(g, fact), fact.tenant, {FactDoc(fact.id)}, fact);
    }
  }

  // ---------- the index ----------

  type VectorIndex = InMemoryVectorSearchStore<DocId, Resource>
}
