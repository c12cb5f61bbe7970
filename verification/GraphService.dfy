/** The service in front of the graph store: ingests, corrections and resolution passes, each followed by its index
    syncs. */
module GraphService {
  import opened Common
  import opened GraphModel
  import opened GraphStore
  import opened ResolutionRuns
  import opened ResolutionTheorems
  import opened EntityResolution
  import opened Supersession
  import opened EntitySplit
  import opened VectorStore
  import opened SearchIndex
  import opened IndexSync

  datatype TargetType = FactTarget | EntityTarget | OtherTarget

  datatype CorrectionKind =
    | FactInvalidate
    | FactUpdate(attribute: string, value: Value, supporting: seq<Id>, reason: string)
    | EntityMerge(canonical: Option<Id>)
    | EntitySplitInto(targets: seq<SplitTarget>)
    | OtherKind(name: string)

  datatype Correction = Correction(tenant: Tenant, kind: CorrectionKind, targetType: TargetType, target: Id)

  datatype CorrectionError =
    | UnsupportedType | WrongTargetType | NotFound | NoCanonical | SameEntity
    | NoTargets | BlankName | AssignedTwice | NotAttached | NotReassigned

  function Stamped(node: Node, now: Time): Node {
    node.(createdAt := if node.createdAt.Absent? then At(now) else node.createdAt, updatedAt := now, lastSeenAt := now)
  }

  function Invalidation(fact: Fact, now: Time): Fact {
    fact.(status := Invalidated, validTo := At(now), recordedTo := At(now))
  }

  function Correcting(prior: Fact, id: Id, tenant: Tenant, kind: CorrectionKind, now: Time): Fact
    requires kind.FactUpdate?
  {
    Fact(id, tenant, prior.entity, if kind.attribute == "" then prior.attribute
         else kind.attribute, kind.value, Current,
         At(now), Absent, At(now), Absent, if kind.supporting == [] then prior.source
             else kind.supporting[0], now, kind.reason)
  }

  function Corrected(prior: Fact, now: Time): Fact {
    prior.(status := Superseded, validTo := At(now), recordedTo := At(now))
  }

  /** The graph with the corrected fact beside the superseded one. */
  function Replaced(g: Graph, prior: Fact, id: Id, tenant: Tenant, kind: CorrectionKind, now: Time): Graph
    requires kind.FactUpdate?
  {
    WithFact(WithFact(g, Corrected(prior, now)), Correcting(prior, id, tenant, kind, now))
  }

  function HumanRel(tenant: Tenant, typ: RelType, src: Id, dst: Id, now: Time): Rel {
    Rel(tenant, typ, src, dst, 1.0, Current, At(now), Absent, At(now), Absent, "human_correction")
  }

  /** The survivor of a manual merge: it takes over the source's names and becomes current again. */
  function MergeTarget(target: Node, source: Node, now: Time): Node {
    target.(aliases := Distinct(target.aliases + [source.name] + source.aliases), status := Current, updatedAt := now)
  }

  predicate NodeFound(g: Graph, id: Id, tenant: Tenant) {
    id in g.nodes && g.nodes[id].tenant == tenant
  }

  predicate FactFound(g: Graph, id: Id, tenant: Tenant) {
    id in g.facts && g.facts[id].tenant == tenant
  }

  /** Whether the correction is accepted; a split can still fail later on a self-loop. */
  ghost predicate Accepted(g: Graph, c: Correction) {
    match c.kind
    case FactInvalidate => c.targetType == FactTarget && FactFound(g, c.target, c.tenant)
    case FactUpdate(_, _, _, _) => c.targetType == FactTarget && FactFound(g, c.target, c.tenant)
    case EntityMerge(canonical) =>
      && c.targetType == EntityTarget && canonical.Some? && canonical.value != c.target
      && NodeFound(g, c.target, c.tenant) && NodeFound(g, canonical.value, c.tenant)
    case EntitySplitInto(targets) => c.targetType == EntityTarget && SplitOk(g, c.tenant, c.target, targets)
    case OtherKind(_) => false
  }

  // ---------- what an accepted correction does, row by row ----------

  /** One fact is closed as invalid at this moment, and nothing else in the tables of nodes and facts moves. */
  ghost predicate FactInvalidated(before: Graph, after: Graph, target: Id, now: Time) {
    && target in before.facts && after.nodes == before.nodes && after.facts.Keys == before.facts.Keys
    && after.facts[target] == before.facts[target].(status := Invalidated, validTo := At(now), recordedTo := At(now))
    && forall f :: f in before.facts && f != target ==> after.facts[f] == before.facts[f]
  }

  /** One new fact says what the correction says, beside the corrected one, which is closed and superseded by it. */
  ghost predicate FactUpdated(before: Graph, after: Graph, target: Id, tenant: Tenant, kind: CorrectionKind, now: Time,
                              id: Id)
    requires kind.FactUpdate?
  {
    && target in before.facts && id !in before.facts && after.nodes == before.nodes
    && after.facts.Keys == before.facts.Keys + {id}
    && IsCorrectionOf(after.facts[id], before.facts[target], tenant, kind, now, id)
    && after.facts[target]
       == before.facts[target].(status := Superseded, validTo := At(now), recordedTo := At(now))
    && (forall f :: f in before.facts && f != target ==> after.facts[f] == before.facts[f])
    && exists r :: r in after.rels && r !in before.rels && r.Plain?
                   && IsSupersessionOf(after.rels[r], tenant, id, target)
  }

  predicate IsCorrectionOf(f: Fact, prior: Fact, tenant: Tenant, kind: CorrectionKind, now: Time, id: Id)
    requires kind.FactUpdate?
  {
    && f.id == id && f.tenant == tenant && f.entity == prior.entity && f.value == kind.value
    && f.attribute == (if kind.attribute == "" then prior.attribute else kind.attribute)
    && f.source == (if kind.supporting == [] then prior.source else kind.supporting[0])
    && f.status == Current && f.validFrom == At(now) && f.validTo == Absent
    && f.recordedFrom == At(now) && f.recordedTo == Absent && f.lastSeenAt == now && f.details == kind.reason
  }

  predicate IsSupersessionOf(rel: Rel, tenant: Tenant, src: Id, dst: Id) {
    rel.tenant == tenant && rel.typ == FactSupersedesFact && rel.src == src && rel.dst == dst && rel.status == Current
    && rel.confidence == 1.0
  }

  /** The source gives its facts, its edges and its names to the canonical node, which is current afterwards. */
  ghost predicate EntitiesMerged(before: Graph, after: Graph, tenant: Tenant, source: Id, canonical: Id) {
    && source in before.nodes && canonical in before.nodes && after.nodes.Keys == before.nodes.Keys
    && after.nodes[source].status == Superseded && SameIdentity(after.nodes[source], before.nodes[source])
    && after.nodes[canonical].status == Current && SameIdentity(after.nodes[canonical], before.nodes[canonical])
    && Names(after.nodes[canonical]) == Names(before.nodes[canonical]) + Names(before.nodes[source])
    && (forall n :: n in before.nodes && n != source && n != canonical ==> after.nodes[n] == before.nodes[n])
    && FactsHandedOver(before.facts, after.facts, tenant, source, canonical)
    && exists r :: r in after.rels && r !in before.rels && r.Plain?
                   && IsMergeInto(after.rels[r], tenant, source, canonical)
  }

  /** Every fact of the source is one of the canonical node now; no other fact moves. */
  ghost predicate FactsHandedOver(before: map<Id, Fact>, after: map<Id, Fact>, tenant: Tenant, source: Id,
                                  canonical: Id)
  {
    && after.Keys == before.Keys
    && forall f :: f in before ==>
         if before[f].tenant == tenant && before[f].entity == source
         then after[f] == before[f].(entity := canonical, lastSeenAt := after[f].lastSeenAt)
         else after[f] == before[f]
  }

  predicate IsMergeInto(rel: Rel, tenant: Tenant, src: Id, dst: Id) {
    rel.tenant == tenant && rel.typ == EntityMergedInto && rel.src == src && rel.dst == dst && rel.status == Current
    && rel.confidence == 1.0
  }

  /** The original is superseded by the nodes of the plan, each with its own facts and edges. */
  ghost predicate SplitByPlan(before: Graph, after: Graph, tenant: Tenant, target: Id, targets: seq<SplitTarget>,
                              plan: seq<Node>, now: Time)
  {
    && target in before.nodes
    && Planned(before, tenant, before.nodes[target], targets, plan, now)
    && NodesSplit(before, after, before.nodes[target], plan, now)
    && FactsAreMoved(before.facts, after.facts, targets, plan, now)
    && EdgesAreMoved(before.rels, after.rels, tenant, target, targets, plan)
    && SyntheticEdgesSplit(before, after, tenant, AllFacts(targets))
  }

  ghost predicate HalfSplitByPlan(before: Graph, after: Graph, tenant: Tenant, target: Id, targets: seq<SplitTarget>,
                                  plan: seq<Node>, now: Time)
  {
    && target in before.nodes
    && Planned(before, tenant, before.nodes[target], targets, plan, now)
    && LeftHalfway(before, after, tenant, target, targets, plan, now)
  }

  /** The entity is split by some plan, or left half-way if a listed relationship is a self-loop. */
  ghost predicate EntityIsSplit(before: Graph, after: Graph, tenant: Tenant, target: Id, targets: seq<SplitTarget>,
                                now: Time)
  {
    if NoListedLoop(before, targets)
    then exists plan :: SplitByPlan(before, after, tenant, target, targets, plan, now)
    else exists plan :: HalfSplitByPlan(before, after, tenant, target, targets, plan, now)
  }

  /** The graph after a correction: unchanged if it is refused, else as its kind says. */
  ghost predicate IsCorrected(before: Graph, after: Graph, c: Correction, now: Time) {
    if !Accepted(before, c) then after == before
    else
      match c.kind
      case FactInvalidate => FactInvalidated(before, after, c.target, now)
      case FactUpdate(_, _, _, _) => exists id :: FactUpdated(before, after, c.target, c.tenant, c.kind, now, id)
      case EntityMerge(canonical) => EntitiesMerged(before, after, c.tenant, c.target, canonical.value)
      case EntitySplitInto(targets) => EntityIsSplit(before, after, c.tenant, c.target, targets, now)
      case OtherKind(_) => false
  }

  /** The documents after an update: none for the corrected fact, and one that says what the correction says. */
  ghost predicate UpdateIsIndexed(documents: map<DocKey, Resource>, after: Graph, target: Id, tenant: Tenant,
                                  kind: CorrectionKind, id: Id)
    requires kind.FactUpdate?
  {
    && (tenant, FactDoc(target)) !in documents
    && (tenant, FactDoc(id)) in documents && documents[(tenant, FactDoc(id))].FactResource?
    && documents[(tenant, FactDoc(id))].value == kind.value
    && id in after.facts && DocumentSays(documents, after.facts[id])
  }

  /** The documents of the facts a correction touched. */
  ghost predicate IsIndexed(documents: map<DocKey, Resource>, before: Graph, after: Graph, c: Correction) {
    match c.kind
    case FactInvalidate => (c.tenant, FactDoc(c.target)) !in documents
    case FactUpdate(_, _, _, _) =>
      forall id :: id in after.facts && id !in before.facts ==>
        UpdateIsIndexed(documents, after, c.target, c.tenant, c.kind, id)
    case _ => true
  }

  /** The answer and the effect of a correction belong together. */
  ghost predicate IsOutcome(before: Graph, documents: map<DocKey, Resource>, after: Graph,
                            documents': map<DocKey, Resource>, c: Correction, now: Time, r: Result<(), CorrectionError>)
  {
    && (!Accepted(before, c) ==> r.Err? && after == before && documents' == documents)
    && (Accepted(before, c) ==> (r.Ok? <==> (c.kind.EntitySplitInto? ==> NoListedLoop(before, c.kind.targets))))
    && IsCorrected(before, after, c, now)
    && (Accepted(before, c) ==> IsIndexed(documents', before, after, c))
  }

  lemma MergeIsOutcome(before: Graph, documents: map<DocKey, Resource>, after: Graph, documents': map<DocKey, Resource>,
                       c: Correction, now: Time)
    requires c.kind.EntityMerge? && c.kind.canonical.Some? && Accepted(before, c)
    requires EntitiesMerged(before, after, c.tenant, c.target, c.kind.canonical.value)
    ensures IsOutcome(before, documents, after, documents', c, now, Ok(()))
  {}

  lemma PlanSplits(before: Graph, after: Graph, tenant: Tenant, target: Id, targets: seq<SplitTarget>, plan: seq<Node>,
                   now: Time)
    requires if NoListedLoop(before, targets) then SplitByPlan(before, after, tenant, target, targets, plan, now)
             else HalfSplitByPlan(before, after, tenant, target, targets, plan, now)
    ensures EntityIsSplit(before, after, tenant, target, targets, now)
  {}

  lemma SplitIsCorrected(before: Graph, after: Graph, c: Correction, now: Time)
    requires c.kind.EntitySplitInto? && c.targetType == EntityTarget
    requires if SplitOk(before, c.tenant, c.target, c.kind.targets)
             then EntityIsSplit(before, after, c.tenant, c.target, c.kind.targets, now) else after == before
    ensures IsCorrected(before, after, c, now)
  {}

  lemma SplitIsOutcome(before: Graph, documents: map<DocKey, Resource>, after: Graph, documents': map<DocKey, Resource>,
                       c: Correction, now: Time, split: Result<seq<Node>, CorrectionError>, plan: seq<Node>,
                       r: Result<(), CorrectionError>)
    requires c.kind.EntitySplitInto? && c.targetType == EntityTarget
    requires !SplitOk(before, c.tenant, c.target, c.kind.targets) ==>
               split.Err? && after == before && documents' == documents
    requires SplitOk(before, c.tenant, c.target, c.kind.targets) ==>
               (split.Ok? <==> NoListedLoop(before, c.kind.targets))
    requires SplitOk(before, c.tenant, c.target, c.kind.targets) && split.Err? ==>
               HalfSplitByPlan(before, after, c.tenant, c.target, c.kind.targets, plan, now)
    requires split.Ok? ==> SplitByPlan(before, after, c.tenant, c.target, c.kind.targets, plan, now)
    requires r.Ok? <==> split.Ok?
    ensures IsOutcome(before, documents, after, documents', c, now, r)
  {
    if SplitOk(before, c.tenant, c.target, c.kind.targets) {
      PlanSplits(before, after, c.tenant, c.target, c.kind.targets, plan, now);
    }
    SplitIsCorrected(before, after, c, now);
  }

  lemma MergedRows(g: Graph, source: Id, target: Id, tenant: Tenant, rel: Id, now: Time)
    requires g.Keyed() && source != target && NodeFound(g, source, tenant) && NodeFound(g, target, tenant)
    requires Plain(rel) !in g.rels
    ensures var canonical := MergeTarget(g.nodes[target], g.nodes[source], now);
            var duplicate := g.nodes[source].(status := Superseded, updatedAt := now);
            var edge := HumanRel(tenant, EntityMergedInto, source, target, now);
            EntitiesMerged(g, Merged(g, canonical, duplicate, canonical.aliases, rel, edge, now), tenant, source,
                           target)
  {
    var canonical := MergeTarget(g.nodes[target], g.nodes[source], now);
    var duplicate := g.nodes[source].(status := Superseded, updatedAt := now);
    var edge := HumanRel(tenant, EntityMergedInto, source, target, now);
    var after := Merged(g, canonical, duplicate, canonical.aliases, rel, edge, now);
    MergedNames(g.nodes[target], g.nodes[source], now);
    assert after.nodes[target].aliases == canonical.aliases && after.nodes[target].name == canonical.name;
    assert IsMergeInto(after.rels[Plain(rel)], tenant, source, target);
  }

  lemma MergedNames(target: Node, source: Node, now: Time)
    ensures Names(MergeTarget(target, source, now)) == Names(target) + Names(source)
  {
    ElementsOfConcat(target.aliases, [source.name]);
    ElementsOfConcat(target.aliases + [source.name], source.aliases);
  }

  lemma ReplacedRows(g: Graph, target: Id, tenant: Tenant, kind: CorrectionKind, now: Time, id: Id, rel: Id)
    requires g.Keyed() && kind.FactUpdate? && FactFound(g, target, tenant) && id !in g.facts && Plain(rel) !in g.rels
    ensures var edge := HumanRel(tenant, FactSupersedesFact, id, target, now);
            FactUpdated(g, WithRel(Replaced(g, g.facts[target], id, tenant, kind, now), rel, edge), target, tenant,
                        kind, now, id)
  {
    var edge := HumanRel(tenant, FactSupersedesFact, id, target, now);
    var after := WithRel(Replaced(g, g.facts[target], id, tenant, kind, now), rel, edge);
    assert IsSupersessionOf(after.rels[Plain(rel)], tenant, id, target);
  }

  lemma ReplacedIsKeyed(g: Graph, superseded: Fact, correcting: Fact)
    requires g.Keyed()
    ensures WithFact(WithFact(g, superseded), correcting).Keyed()
  {
    WithFactIsKeyed(g, superseded);
    WithFactIsKeyed(WithFact(g, superseded), correcting);
  }

  lemma ReplacedSyncs(docs: map<DocKey, Resource>, g: Graph, superseded: Fact, correcting: Fact)
    requires g.Keyed() && InSync(docs, g) && superseded.id != correcting.id && correcting.id !in g.facts
    requires superseded.id in g.facts && g.facts[superseded.id].tenant == superseded.tenant
    ensures InSync(SyncedFact(SyncedFact(docs, superseded), correcting), WithFact(WithFact(g, superseded), correcting))
  {
    WithFactIsKeyed(g, superseded);
    FactRewriteSyncs(docs, g, superseded);
    FactRewriteSyncs(SyncedFact(docs, superseded), WithFact(g, superseded), correcting);
  }

  /** Storing facts adds no ordinary edge, so an id new among the edges afterwards was new before. */
  lemma FreshEdge(g: Graph, after: Graph, superseded: Fact, correcting: Fact, rel: Id)
    requires after == WithFact(WithFact(g, superseded), correcting) && rel !in PlainIds(after.rels)
    ensures Plain(rel) !in g.rels
  {
    assert Plain(rel) in g.rels ==> Plain(rel) in after.rels;
    assert Plain(rel) in after.rels ==> rel in PlainIds(after.rels);
  }

  /** The documents a rebuild collects for one tenant. */
  ghost predicate IsCollection(documents: map<DocKey, Resource>, g: Graph, tenant: Tenant) {
    forall key: DocKey :: Lookup(documents, key) == if key.0 == tenant then Expected(g, key) else None
  }

  lemma AllOfTenant(documents: map<DocKey, Resource>, g: Graph, tenant: Tenant)
    requires IsCollection(documents, g, tenant)
    ensures forall key :: key in documents ==> key.0 == tenant
  {
    forall key: DocKey | key in documents ensures key.0 == tenant {
      assert Lookup(documents, key) == Some(documents[key]);
    }
  }

  lemma ReplacedIsRebuilt(before: map<DocKey, Resource>, documents: map<DocKey, Resource>, after: map<DocKey, Resource>,
                          g: Graph, tenant: Tenant)
    requires g.Keyed() && IsCollection(documents, g, tenant)
    requires after == (map key | key in before && key.0 != tenant :: before[key]) + documents
    ensures forall key: DocKey :: Lookup(after, key) ==
              if key.0 == tenant then Expected(g, key) else Lookup(before, key)
    ensures IsRebuilt(after, g, tenant)
  {
    forall key: DocKey
      ensures Lookup(after, key) == if key.0 == tenant then Expected(g, key) else Lookup(before, key)
    {
      assert Lookup(documents, key) == if key.0 == tenant then Expected(g, key) else None;
    }
    ExpectedIsRebuilt(after, g, tenant);
  }

  class GraphService {
    const store: Neo4jClient
    const index: VectorIndex
    const supersession: SupersessionDetectionJob
    const resolution: EntityResolutionJob

    predicate Wired() {
      supersession.store == store && resolution.store == store
    }

    /** The search index holds what a rebuild from the graph would put there. */
    ghost predicate IndexIsRight()
      reads store, index
    {
      InSync(index.documents, store.State())
    }

    constructor ()
      ensures Wired() && fresh(store) && fresh(index)
      ensures store.State() == Graph(map[], map[], map[]) && store.State().Keyed() && IndexIsRight()
    {
      var graph := new Neo4jClient();
      var documents := new InMemoryVectorSearchStore<DocId, Resource>();
      var detection := new SupersessionDetectionJob(graph);
      var job := new EntityResolutionJob(graph);
      store, index, supersession, resolution := graph, documents, detection, job;
    }

    method SyncNodeIndex(node: Node)
      modifies index
      ensures index.documents == SyncedNode(old(index.documents), node)
    {
      if node.status != Current {
        index.Delete(node.tenant, NodeDoc(node.id));
      } else {
        index.Upsert(node.tenant, NodeDoc(node.id), NodeDocument(node));
      }
    }

    method SyncFactIndex(fact: Fact)
      modifies index
      ensures index.documents == SyncedFact(old(index.documents), fact)
    {
      if fact.status != Current {
        index.Delete(fact.tenant, FactDoc(fact.id));
      } else {
        index.Upsert(fact.tenant, FactDoc(fact.id), FactDocument(fact));
      }
    }

    method SyncFacts(facts: seq<Fact>)
      modifies index
      ensures index.documents == SyncedFacts(old(index.documents), facts)
    {
      var i := 0;
      while i < |facts|
        invariant 0 <= i <= |facts|
        invariant index.documents == SyncedFacts(old(index.documents), facts[..i])
      {
        assert facts[..i + 1][..i] == facts[..i];
        SyncFactIndex(facts[i]);
        i := i + 1;
      }
      assert facts[..i] == facts;
    }

    method CopyFacts(ids: set<Id>) returns (facts: seq<Fact>)
      requires store.State().Keyed() && ids <= store.facts.Keys
      ensures Copies(facts, store.facts, ids)
    {
      var order := Enumerate(ids);
      facts := [];
      var i := 0;
      while i < |order|
        invariant 0 <= i <= |order| && |facts| == i
        invariant forall k :: 0 <= k < i ==>
                  facts[k].id == order[k] && order[k] in ids && facts[k] == store.facts[order[k]]
      {
        assert order[i] in order;
        facts := facts + [store.facts[order[i]]];
        i := i + 1;
      }
      forall f | f in ids ensures HasCopy(facts, f) {
        assert f in order;
        var k :| 0 <= k < |order| && order[k] == f;
        assert facts[k].id == f;
      }
    }

    // ---------- ingestion ----------

    /** Stores a node; the index stays right exactly when the id was not a current node of another tenant. */
    method IngestNode(node: Node, now: Time)
      requires Wired() && store.State().Keyed()
      modifies store, index
      ensures store.State() == WithNode(old(store.State()), Stamped(node, now)) && store.State().Keyed()
      ensures node.id in store.nodes && var row := store.nodes[node.id];
              row == node.(createdAt := row.createdAt, updatedAt := now, lastSeenAt := now)
              && (node.createdAt != Absent ==> row.createdAt == node.createdAt)
      ensures old(IndexIsRight()) ==> (IndexIsRight() <==> !StrandsNode(old(store.State()), node))
    {
      ghost var g, docs := store.State(), index.documents;
      var stamped := Stamped(node, now);
      store.UpsertNode(stamped);
      SyncNodeIndex(stamped);
      var supported := set f | f in store.facts && store.facts[f].tenant == node.tenant
                            && (store.facts[f].source == node.id || store.facts[f].source == node.sourceId);
      var facts := CopyFacts(supported);
      SyncFacts(facts);
      if InSync(docs, g) {
        NodeIngestSyncs(docs, g, stamped, facts, supported);
      }
    }

    /** Stores a fact after weighing it against its rivals; right exactly when its id strands no other tenant's fact. */
    method IngestFact(fact: Fact, authority: Authority, now: Time) returns (ghost priors: seq<Fact>)
      requires Wired() && store.State().Keyed()
      modifies store, index
      ensures ListsRivals(priors, old(store.facts), fact.(lastSeenAt := now))
      ensures store.State() == Detected(old(store.State()), fact.(lastSeenAt := now), priors, authority, now)
      ensures store.State().Keyed()
      ensures old(IndexIsRight()) ==> (IndexIsRight() <==> !StrandsFact(old(store.State()), fact))
    {
      ghost var g, docs := store.State(), index.documents;
      var seen := fact.(lastSeenAt := now);
      priors := supersession.DetectSupersession(seen, authority, now);
      DetectedIsKeyed(g, seen, priors, authority, now);
      var facts := CopyFacts(FactsOf(store.facts, fact.tenant, fact.entity));
      SyncFacts(facts);
      if InSync(docs, g) {
        FactIngestSyncs(docs, g, seen, priors, authority, now, facts);
      }
    }

    method IngestRelationship(id: Id, rel: Rel)
      requires store.State().Keyed()
      modifies store
      ensures store.State() == WithRel(old(store.State()), id, rel) && store.State().Keyed()
      ensures old(IndexIsRight()) ==> IndexIsRight()
    {
      store.UpsertRelationship(id, rel);
    }

    // ---------- rebuilding ----------

    /** Replaces the tenant's documents by those of its current nodes and facts; every other tenant keeps its own. */
    method ReindexSearch(tenant: Tenant)
      requires store.State().Keyed()
      modifies index
      ensures forall key: DocKey :: Lookup(index.documents, key) ==
                if key.0 == tenant then Expected(store.State(), key) else Lookup(old(index.documents), key)
      ensures IsRebuilt(index.documents, store.State(), tenant)
    {
      var nodes := store.ListNodes(tenant);
      var facts := Enumerate(set f | f in store.facts && store.facts[f].tenant == tenant);
      var documents: map<DocKey, Resource> := map[];
      var i := 0;
      while i < |nodes|
        invariant 0 <= i <= |nodes|
        invariant forall key: DocKey :: Lookup(documents, key) ==
                    if key.0 == tenant && key.1.NodeDoc? && key.1.id in nodes[..i] then Expected(store.State(), key)
                        else None
      {
        assert nodes[i] in nodes;
        var node := store.nodes[nodes[i]];
        if node.status == Current {
          documents := documents[(tenant, NodeDoc(node.id)) := NodeDocument(node)];
        }
        i := i + 1;
      }
      assert nodes[..i] == nodes;
      i := 0;
      while i < |facts|
        invariant 0 <= i <= |facts|
        invariant forall key: DocKey :: Lookup(documents, key) ==
                    if key.0 == tenant && (key.1.NodeDoc? || key.1.id in facts[..i]) then Expected(store.State(), key)
                        else None
      {
        assert facts[i] in facts;
        var fact := store.facts[facts[i]];
        if fact.status == Current {
          documents := documents[(tenant, FactDoc(fact.id)) := FactDocument(fact)];
        }
        i := i + 1;
      }
      assert facts[..i] == facts;
      AllOfTenant(documents, store.State(), tenant);
      ghost var before := index.documents;
      var accepted := index.ReplaceTenant(tenant, documents);
      ReplacedIsRebuilt(before, documents, index.documents, store.State(), tenant);
    }

    /** A resolution pass, with a rebuild whenever it merged something, leaves the index right. */
    method ResolveOutstandingEntities(tenant: Tenant, score: Scorer, now: Time)
        returns (report: Report, ghost steps: seq<Step>)
      requires Wired() && store.State().Keyed()
      modifies store, index
      ensures store.State() == Run(old(store.State()), tenant, steps, now) && store.State().Keyed()
      ensures LegalRun(old(store.State()), tenant, Candidates(old(store.State()), tenant), steps, now)
      ensures ReportFits(report, steps)
      ensures old(IndexIsRight()) ==> IndexIsRight()
    {
      ghost var g := store.State();
      report, steps := resolution.ResolveEntities(tenant, score, now);
      RunIsQuotient(g, tenant, Candidates(g, tenant), steps, now);
      if report.autoMergedCount > 0 {
        ReindexSearch(tenant);
        forall key: DocKey | key.0 != tenant ensures Expected(store.State(), key) == Expected(g, key) {
          PassStaysInTenant(g, store.State(), tenant, steps, key);
        }
      } else {
        LinksOnlyKeepRows(g, tenant, steps, now);
      }
    }

    // ---------- corrections of facts and merges ----------

    method InvalidateFact(target: Id, tenant: Tenant, now: Time)
      requires store.State().Keyed() && FactFound(store.State(), target, tenant)
      modifies store, index
      ensures store.State() == WithFact(old(store.State()), Invalidation(old(store.facts)[target], now))
              && store.State().Keyed()
      ensures FactInvalidated(old(store.State()), store.State(), target, now)
      ensures (tenant, FactDoc(target)) !in index.documents
      ensures old(IndexIsRight()) ==> IndexIsRight()
    {
      ghost var g, docs := store.State(), index.documents;
      var invalidated := Invalidation(store.facts[target], now);
      store.UpsertFact(invalidated);
      SyncFactIndex(invalidated);
      if InSync(docs, g) {
        FactRewriteSyncs(docs, g, invalidated);
      }
    }

    /** Replaces a fact by a corrected one under a new id, linked by a supersession edge. */
    method UpdateFact(target: Id, tenant: Tenant, kind: CorrectionKind, now: Time) returns (id: Id, ghost rel: Id)
      requires kind.FactUpdate? && store.State().Keyed() && FactFound(store.State(), target, tenant)
      modifies store, index
      ensures id !in old(store.facts)
      ensures Plain(rel) !in old(store.rels)
      ensures var prior := old(store.facts)[target];
              store.State() == WithRel(Replaced(old(store.State()), prior, id, tenant, kind, now), rel,
                                       HumanRel(tenant, FactSupersedesFact, id, target, now))
      ensures FactUpdated(old(store.State()), store.State(), target, tenant, kind, now, id)
      ensures UpdateIsIndexed(index.documents, store.State(), target, tenant, kind, id)
      ensures store.State().Keyed()
      ensures old(IndexIsRight()) ==> IndexIsRight()
    {
      ghost var g, docs := store.State(), index.documents;
      var prior := store.facts[target];
      id := FreshId(store.facts.Keys);
      var superseded, correcting := Corrected(prior, now), Correcting(prior, id, tenant, kind, now);
      store.UpsertFact(superseded);
      store.UpsertFact(correcting);
      SyncFactIndex(superseded);
      SyncFactIndex(correcting);
      ghost var both := store.State();
      ReplacedIsKeyed(g, superseded, correcting);
      if InSync(docs, g) {
        ReplacedSyncs(docs, g, superseded, correcting);
      }
      var edge := FreshId(PlainIds(store.rels));
      rel := edge;
      FreshEdge(g, both, superseded, correcting, rel);
      IngestRelationship(edge, HumanRel(tenant, FactSupersedesFact, id, target, now));
      ReplacedRows(g, target, tenant, kind, now, id, rel);
    }

    method MergeEntities(source: Id, target: Id, tenant: Tenant, now: Time) returns (ghost rel: Id)
      requires store.State().Keyed() && source != target
      requires NodeFound(store.State(), source, tenant) && NodeFound(store.State(), target, tenant)
      modifies store, index
      ensures Plain(rel) !in old(store.rels)
      ensures var (from, to) := (old(store.nodes)[source], old(store.nodes)[target]);
              store.State() == Merged(old(store.State()), MergeTarget(to, from, now),
                                      from.(status := Superseded, updatedAt := now), MergeTarget(to, from, now).aliases,
                                      rel, HumanRel(tenant, EntityMergedInto, source, target, now), now)
      ensures EntitiesMerged(old(store.State()), store.State(), tenant, source, target)
      ensures store.State().Keyed()
      ensures old(IndexIsRight()) ==> IndexIsRight()
    {
      ghost var g, docs := store.State(), index.documents;
      var canonical := MergeTarget(store.nodes[target], store.nodes[source], now);
      var duplicate := store.nodes[source].(status := Superseded, updatedAt := now);
      var moved := MovedFacts(store.facts, tenant, source);
      var id := FreshId(PlainIds(store.rels));
      rel := id;
      var edge := HumanRel(tenant, EntityMergedInto, source, target, now);
      assert Plain(id) in g.rels ==> id in PlainIds(g.rels);
      store.MergeEntities(canonical, duplicate, canonical.aliases, id, edge, now);
      ghost var merged := store.State();
      store.UpsertNode(canonical);
      store.UpsertNode(duplicate);
      assert store.nodes == merged.nodes;
      SyncNodeIndex(canonical);
      SyncNodeIndex(duplicate);
      MergeIsKeyed(g, canonical, duplicate, canonical.aliases, id, edge, now);
      var facts := CopyFacts(moved);
      SyncFacts(facts);
      if InSync(docs, g) {
        MergeSyncs(docs, g, canonical, duplicate, canonical.aliases, id, edge, now, facts);
      }
      MergedRows(g, source, target, tenant, id, now);
    }

    // ---------- splitting ----------

    method CheckFacts(tenant: Tenant, original: Id, facts: seq<Id>, seen: set<Id>, ghost before: seq<Id>)
        returns (error: Option<CorrectionError>, seen': set<Id>)
      requires seen == Elements(before) && NoRepeats(before)
      ensures error == None <==> NoRepeats(before + facts) && Fits(store.State(), tenant, original, facts)
      ensures error == None ==> seen' == Elements(before + facts)
      ensures error != Some(NotReassigned)
    {
      seen', error := seen, None;
      var i := 0;
      while i < |facts|
        invariant 0 <= i <= |facts|
        invariant NoRepeats(before + facts[..i]) && Fits(store.State(), tenant, original, facts[..i])
        invariant seen' == Elements(before + facts[..i])
      {
        var f := facts[i];
        ghost var listed := before + facts[..i];
        assert before + facts[..i + 1] == listed + [f] && f in facts;
        if f in seen' {
          ghost var p :| 0 <= p < |listed| && listed[p] == f;
          assert (before + facts)[p] == (before + facts)[|listed|];
          return Some(AssignedTwice), seen';
        }
        ElementsOfConcat(listed, [f]);
        seen' := seen' + {f};
        if f !in store.facts || store.facts[f].tenant != tenant {
          return Some(NotFound), seen';
        }
        if store.facts[f].entity != original {
          return Some(NotAttached), seen';
        }
        i := i + 1;
      }
      assert facts[..i] == facts;
    }

    method CheckRels(tenant: Tenant, original: Id, rels: seq<RelId>, seen: set<RelId>, ghost before: seq<RelId>)
        returns (error: Option<CorrectionError>, seen': set<RelId>)
      requires seen == Elements(before) && NoRepeats(before)
      ensures error == None <==> NoRepeats(before + rels) && RelsFit(store.State(), tenant, original, rels)
      ensures error == None ==> seen' == Elements(before + rels)
      ensures error != Some(NotReassigned)
    {
      seen', error := seen, None;
      var i := 0;
      while i < |rels|
        invariant 0 <= i <= |rels|
        invariant NoRepeats(before + rels[..i]) && RelsFit(store.State(), tenant, original, rels[..i])
        invariant seen' == Elements(before + rels[..i])
      {
        var r := rels[i];
        ghost var listed := before + rels[..i];
        assert before + rels[..i + 1] == listed + [r] && r in rels;
        if r in seen' {
          ghost var p :| 0 <= p < |listed| && listed[p] == r;
          assert (before + rels)[p] == (before + rels)[|listed|];
          return Some(AssignedTwice), seen';
        }
        ElementsOfConcat(listed, [r]);
        seen' := seen' + {r};
        if r !in store.rels || store.rels[r].tenant != tenant || !r.Plain? {
          return Some(NotFound), seen';
        }
        if store.rels[r].src != original && store.rels[r].dst != original {
          return Some(NotAttached), seen';
        }
        i := i + 1;
      }
      assert rels[..i] == rels;
    }

    /** Checks the complete reassignment and prepares the new nodes, before anything is written. */
    method PlanSplit(tenant: Tenant, original: Node, targets: seq<SplitTarget>, now: Time)
        returns (r: Result<seq<Node>, CorrectionError>)
      requires NodeFound(store.State(), original.id, tenant)
      ensures r.Ok? <==> SplitOk(store.State(), tenant, original.id, targets)
      ensures r.Ok? ==> Planned(store.State(), tenant, original, targets, r.value, now)
      ensures r.Err? ==> r.error != NotReassigned
    {
      if targets == [] {
        return Err(NoTargets);
      }
      ghost var g := store.State();
      var plan: seq<Node> := [];
      var seenFacts: set<Id>, seenRels: set<RelId>, ids: set<Id> := {}, {}, {};
      var k := 0;
      while k < |targets|
        invariant 0 <= k <= |targets| == |targets[..k]| + (|targets| - k)
        invariant TargetsFit(g, tenant, original.id, targets, k)
        invariant seenFacts == Elements(AllFacts(targets[..k])) && seenRels == Elements(AllRels(targets[..k]))
        invariant |plan| == k && ids == PlanIds(plan)
        invariant Planned(g, tenant, original, targets[..k], plan, now)
      {
        ListedSoFar(targets, k);
        if IsBlank(targets[k].name) {
          return Err(BlankName);
        }
        var error;
        error, seenFacts := CheckFacts(tenant, original.id, targets[k].facts, seenFacts, AllFacts(targets[..k]));
        if error.Some? {
          RejectsFacts(g, tenant, original.id, targets, k);
          return Err(error.value);
        }
        error, seenRels := CheckRels(tenant, original.id, targets[k].rels, seenRels, AllRels(targets[..k]));
        if error.Some? {
          RejectsRels(g, tenant, original.id, targets, k);
          return Err(error.value);
        }
        var used := store.nodes.Keys + store.facts.Keys
                    + (set r | r in store.rels :: store.rels[r].src) + (set r | r in store.rels :: store.rels[r].dst);
        var id := FreshId(used + ids);
        TargetsFitSnoc(g, tenant, original.id, targets, k);
        PlannedSnoc(g, tenant, original, targets, plan, id, now);
        PlanIdsSnoc(plan, SplitNode(original, tenant, targets[k], id, now));
        plan, ids := plan + [SplitNode(original, tenant, targets[k], id, now)], ids + {id};
        k := k + 1;
      }
      assert targets[..k] == targets;
      return Ok(plan);
    }

    method ReassignFact(f: Id, tenant: Tenant, owner: Id, now: Time)
      requires store.State().Keyed() && CanReassignFact(store.State(), f, tenant, owner)
      modifies store, index
      ensures store.State() == FactReassigned(old(store.State()), f, tenant, owner, now) && store.State().Keyed()
      ensures old(IndexIsRight()) ==> IndexIsRight()
    {
      ghost var before, docs := store.State(), index.documents;
      var moved := store.ReassignFact(f, tenant, owner, now);
      SyncFactIndex(moved.value);
      ReassignedIsKeyed(before, f, tenant, owner, now);
      if InSync(docs, before) {
        ReassignedFactSyncs(docs, before, f, tenant, owner, now);
      }
    }

    method GiveFact(ghost g: Graph, tenant: Tenant, original: Id, owner: Id, facts: seq<Id>, i: nat, now: Time,
                    ghost p: Progress)
      requires i < |facts| && NoRepeats(facts) && FactFits(g, tenant, original, facts[i]) && facts[i] !in p.factTo
               && owner in p.added
      requires OnPlan(g, tenant, original, WithFactsTo(p, facts[..i], owner), now)
      modifies store, index
      ensures OnPlan(g, tenant, original, WithFactsTo(p, facts[..i + 1], owner), now)
      ensures old(IndexIsRight()) ==> IndexIsRight()
    {
      ghost var q := WithFactsTo(p, facts[..i], owner);
      assert facts[i] !in facts[..i];
      SplitMovesFact(g, tenant, original, q, now, facts[i], owner);
      SensibleWithFact(g, tenant, original, q, facts[i], owner);
      ReassignFact(facts[i], tenant, owner, now);
      OneMoreFactTo(p, facts, i, owner);
    }

    /** The store is the original graph with the reassignments in `p` made. */
    ghost predicate OnPlan(g: Graph, tenant: Tenant, original: Id, p: Progress, now: Time)
      reads store
    {
      Sensible(g, tenant, original, p) && store.State() == Split(g, tenant, original, p, now) && store.State().Keyed()
    }

    /** Reassigns the target's facts to its new node. */
    method GiveFacts(ghost g: Graph, tenant: Tenant, original: Id, owner: Id, facts: seq<Id>, now: Time,
                     ghost p: Progress)
      requires NoRepeats(facts) && Fits(g, tenant, original, facts) && Elements(facts) !! p.factTo.Keys
               && owner in p.added
      requires OnPlan(g, tenant, original, p, now)
      modifies store, index
      ensures OnPlan(g, tenant, original, WithFactsTo(p, facts, owner), now)
      ensures old(IndexIsRight()) ==> IndexIsRight()
    {
      NoneTo(p, facts, [], owner);
      var i := 0;
      while i < |facts|
        invariant 0 <= i <= |facts|
        invariant OnPlan(g, tenant, original, WithFactsTo(p, facts[..i], owner), now)
        invariant old(IndexIsRight()) ==> IndexIsRight()
      {
        assert facts[i] in facts && facts[i] in Elements(facts);
        GiveFact(g, tenant, original, owner, facts, i, now, p);
        i := i + 1;
      }
      TakeAll(facts);
    }

    method ReassignRel(r: RelId, tenant: Tenant, original: Id, owner: Id) returns (ok: bool)
      requires r.Plain? && store.State().Keyed() && CanReassignRel(store.State(), r.id, tenant, original, owner)
      modifies store
      ensures store.State() == RelReassigned(old(store.State()), r.id, tenant, original, owner) && store.State().Keyed()
      ensures ok <==> !Collapses(r, old(store.rels)[r], tenant, original, owner)
      ensures old(IndexIsRight()) ==> IndexIsRight()
    {
      ghost var before := store.State();
      var moved := store.ReassignRelationship(r.id, tenant, original, owner);
      ok := moved.Some?;
      if InSync(index.documents, before) {
        EdgesAreNotIndexed(index.documents, before, store.State());
      }
    }

    method GiveRel(ghost g: Graph, tenant: Tenant, original: Id, owner: Id, rels: seq<RelId>, i: nat, now: Time,
                   ghost p: Progress)
        returns (ok: bool)
      requires i < |rels| && NoRepeats(rels) && RelFits(g, tenant, original, rels[i]) && rels[i] !in p.relTo
               && owner in p.added
      requires OnPlan(g, tenant, original, WithRelsTo(p, rels[..i], owner), now)
      modifies store
      ensures ok <==> !IsLoop(g, rels[i])
      ensures ok ==> OnPlan(g, tenant, original, WithRelsTo(p, rels[..i + 1], owner), now)
      ensures !ok ==> StoppedOn(g, store.State(), tenant, original, WithRelsTo(p, rels[..i], owner), now, rels[i])
      ensures store.State().Keyed()
      ensures old(IndexIsRight()) ==> IndexIsRight()
    {
      ghost var q := WithRelsTo(p, rels[..i], owner);
      assert rels[i] !in rels[..i];
      SplitMovesRel(g, tenant, original, q, now, rels[i], owner);
      ListedRelUntouched(g, tenant, original, q, now, rels[i]);
      ok := ReassignRel(rels[i], tenant, original, owner);
      if ok {
        SensibleWithRel(g, tenant, original, q, rels[i], owner);
        OneMoreRelTo(p, rels, i, owner);
      }
    }

    /** Reassigns the target's relationships; stops at the first self-loop, which the store deletes. */
    method GiveRels(ghost g: Graph, tenant: Tenant, original: Id, owner: Id, rels: seq<RelId>, now: Time,
                    ghost p: Progress)
        returns (ok: bool, ghost stop: nat)
      requires NoRepeats(rels) && RelsFit(g, tenant, original, rels) && Elements(rels) !! p.relTo.Keys
               && owner in p.added
      requires OnPlan(g, tenant, original, p, now)
      modifies store
      ensures ok <==> LoopFree(g, rels)
      ensures ok ==> OnPlan(g, tenant, original, WithRelsTo(p, rels, owner), now)
      ensures !ok ==>
                && stop < |rels| && LoopFree(g, rels[..stop]) && IsLoop(g, rels[stop])
                && StoppedOn(g, store.State(), tenant, original, WithRelsTo(p, rels[..stop], owner), now, rels[stop])
      ensures store.State().Keyed()
      ensures old(IndexIsRight()) ==> IndexIsRight()
    {
      NoneTo(p, [], rels, owner);
      var i := 0;
      while i < |rels|
        invariant 0 <= i <= |rels|
        invariant LoopFree(g, rels[..i])
        invariant OnPlan(g, tenant, original, WithRelsTo(p, rels[..i], owner), now)
        invariant old(IndexIsRight()) ==> IndexIsRight()
      {
        LoopFreeSnoc(g, rels, i);
        ListedRelIsOpen(g, tenant, original, rels, p, i);
        ok := GiveRel(g, tenant, original, owner, rels, i, now, p);
        if !ok {
          stop := i;
          return;
        }
        i := i + 1;
      }
      TakeAll(rels);
      ok, stop := true, i;
    }

    method PutNode(node: Node)
      requires store.State().Keyed() && (node.id in store.nodes ==> store.nodes[node.id].tenant == node.tenant)
      modifies store, index
      ensures store.State() == WithNode(old(store.State()), node) && store.State().Keyed()
      ensures old(IndexIsRight()) ==> IndexIsRight()
    {
      ghost var g, docs := store.State(), index.documents;
      store.UpsertNode(node);
      SyncNodeIndex(node);
      if InSync(docs, g) {
        NodeRewriteSyncs(docs, g, node);
      }
    }

    /** Creates one target's node and hands over everything listed for it. */
    method ServeTarget(ghost g: Graph, tenant: Tenant, original: Id, targets: seq<SplitTarget>, plan: seq<Node>, k: nat,
                       now: Time, ghost p: Progress)
        returns (ok: bool, ghost stop: nat)
      requires SplitOk(g, tenant, original, targets) && |plan| == |targets| && k < |plan|
      requires OnPlan(g, tenant, original, p, now) && Served(targets, plan, k, p)
      requires plan[k].id !in KnownIds(g) && plan[k].tenant == tenant && forall i :: 0 <= i < k ==>
               plan[i].id != plan[k].id
      modifies store, index
      ensures ok <==> LoopFree(g, targets[k].rels)
      ensures ok ==>
                && OnPlan(g, tenant, original, Halfway(p, targets[k], plan[k], |targets[k].rels|), now)
                && Served(targets, plan, k + 1, Halfway(p, targets[k], plan[k], |targets[k].rels|))
      ensures !ok ==>
                && stop < |targets[k].rels| && LoopFree(g, targets[k].rels[..stop]) && IsLoop(g, targets[k].rels[stop])
                && StoppedOn(g, store.State(), tenant, original, Halfway(p, targets[k], plan[k], stop), now,
                             targets[k].rels[stop])
      ensures store.State().Keyed()
      ensures old(IndexIsRight()) ==> IndexIsRight()
    {
      PartsOfPlan(g, tenant, original, targets, k);
      FreshInPlan(plan, k, p);
      SplitAddsNode(g, tenant, original, p, now, plan[k]);
      SensibleWithNode(g, tenant, original, p, plan[k]);
      PutNode(plan[k]);
      ghost var q := p.(added := p.added[plan[k].id := plan[k]]);
      GiveFacts(g, tenant, original, plan[k].id, targets[k].facts, now, q);
      q := WithFactsTo(q, targets[k].facts, plan[k].id);
      ok, stop := GiveRels(g, tenant, original, plan[k].id, targets[k].rels, now, q);
      if ok {
        TakeAll(targets[k].rels);
        ServedOneMore(targets, plan, k, p);
      }
    }

    /** Carries out a checked plan; it fails exactly when a listed relationship is a self-loop, and then half-way. */
    method PerformSplit(tenant: Tenant, original: Node, targets: seq<SplitTarget>, plan: seq<Node>, now: Time)
        returns (ok: bool)
      requires store.State().Keyed() && NodeFound(store.State(), original.id, tenant)
               && store.nodes[original.id] == original
      requires SplitOk(store.State(), tenant, original.id, targets)
      requires Planned(store.State(), tenant, original, targets, plan, now)
      modifies store, index
      ensures ok <==> NoListedLoop(old(store.State()), targets)
      ensures ok ==> NodesSplit(old(store.State()), store.State(), original, plan, now)
      ensures ok ==> FactsAreMoved(old(store.facts), store.facts, targets, plan, now)
      ensures ok ==> EdgesAreMoved(old(store.rels), store.rels, tenant, original.id, targets, plan)
      ensures ok ==> SyntheticEdgesSplit(old(store.State()), store.State(), tenant, AllFacts(targets))
      ensures !ok ==> LeftHalfway(old(store.State()), store.State(), tenant, original.id, targets, plan, now)
      ensures store.State().Keyed()
      ensures old(IndexIsRight()) ==> IndexIsRight()
    {
      ghost var g := store.State();
      SplitOfNothing(g, tenant, original.id, now);
      var k := 0;
      while k < |plan|
        invariant 0 <= k <= |plan|
        invariant OnPlan(g, tenant, original.id, ServedUpTo(targets, plan, k), now)
        invariant Served(targets, plan, k, ServedUpTo(targets, plan, k))
        invariant NoListedLoop(g, targets[..k])
        invariant store.State().Keyed()
        invariant old(IndexIsRight()) ==> IndexIsRight()
      {
        var given;
        ghost var stop;
        given, stop := ServeTarget(g, tenant, original.id, targets, plan, k, now, ServedUpTo(targets, plan, k));
        LoopsSoFar(g, targets, k);
        if !given {
          assert LeftAt(g, store.State(), tenant, original.id, targets, plan, now, k, stop);
          return false;
        }
        k := k + 1;
      }
      ghost var p := ServedUpTo(targets, plan, k);
      TakeAll(targets);
      SplitPlacesFacts(g, store.facts, tenant, original.id, targets, plan, p, now);
      SplitPlacesListed(g, store.rels, tenant, original.id, targets, plan, p, now);
      SplitPlacesEdges(g, store.State(), tenant, original.id, targets, plan, p, now);
      NodesPlaced(g, store.nodes[original.id := original.(status := Superseded, updatedAt := now)], original, targets,
                  plan, p, now);
      PutNode(original.(status := Superseded, updatedAt := now));
      ok := true;
    }

    /** A split either changes nothing, or completes, or meets a listed self-loop half-way. */
    method SplitEntity(target: Id, tenant: Tenant, targets: seq<SplitTarget>, now: Time)
        returns (r: Result<seq<Node>, CorrectionError>, ghost plan: seq<Node>)
      requires store.State().Keyed()
      modifies store, index
      ensures !SplitOk(old(store.State()), tenant, target, targets) ==>
                && r.Err? && r.error != NotReassigned
                && store.State() == old(store.State()) && index.documents == old(index.documents)
      ensures SplitOk(old(store.State()), tenant, target, targets) ==>
              (r.Ok? <==> NoListedLoop(old(store.State()), targets))
      ensures r.Err? && r.error == NotReassigned <==>
                SplitOk(old(store.State()), tenant, target, targets) && !NoListedLoop(old(store.State()), targets)
      ensures r.Err? && r.error == NotReassigned ==>
                HalfSplitByPlan(old(store.State()), store.State(), tenant, target, targets, plan, now)
      ensures r.Ok? ==> r.value == plan
                        && SplitByPlan(old(store.State()), store.State(), tenant, target, targets, plan, now)
      ensures store.State().Keyed()
      ensures old(IndexIsRight()) ==> IndexIsRight()
    {
      if target !in store.nodes || store.nodes[target].tenant != tenant {
        return Err(NotFound), [];
      }
      r := PlanSplit(tenant, store.nodes[target], targets, now);
      plan := [];
      if r.Ok? {
        plan := r.value;
        var ok := PerformSplit(tenant, store.nodes[target], targets, r.value, now);
        if !ok {
          r := Err(NotReassigned);
        }
      }
    }

    method InvalidateOnRequest(c: Correction, now: Time) returns (r: Result<(), CorrectionError>)
      requires store.State().Keyed() && c.kind.FactInvalidate?
      modifies store, index
      ensures IsOutcome(old(store.State()), old(index.documents), store.State(), index.documents, c, now, r)
      ensures store.State().Keyed()
      ensures old(IndexIsRight()) ==> IndexIsRight()
    {
      if c.targetType != FactTarget { return Err(WrongTargetType); }
      if c.target !in store.facts || store.facts[c.target].tenant != c.tenant { return Err(NotFound); }
      InvalidateFact(c.target, c.tenant, now);
      return Ok(());
    }

    method UpdateOnRequest(c: Correction, now: Time) returns (r: Result<(), CorrectionError>)
      requires store.State().Keyed() && c.kind.FactUpdate?
      modifies store, index
      ensures IsOutcome(old(store.State()), old(index.documents), store.State(), index.documents, c, now, r)
      ensures store.State().Keyed()
      ensures old(IndexIsRight()) ==> IndexIsRight()
    {
      if c.targetType != FactTarget { return Err(WrongTargetType); }
      if c.target !in store.facts || store.facts[c.target].tenant != c.tenant { return Err(NotFound); }
      var id;
      ghost var rel;
      id, rel := UpdateFact(c.target, c.tenant, c.kind, now);
      return Ok(());
    }

    method MergeOnRequest(c: Correction, now: Time) returns (r: Result<(), CorrectionError>)
      requires store.State().Keyed() && c.kind.EntityMerge?
      modifies store, index
      ensures IsOutcome(old(store.State()), old(index.documents), store.State(), index.documents, c, now, r)
      ensures store.State().Keyed()
      ensures old(IndexIsRight()) ==> IndexIsRight()
    {
      if c.targetType != EntityTarget { return Err(WrongTargetType); }
      if c.kind.canonical.None? { return Err(NoCanonical); }
      var canonical := c.kind.canonical.value;
      if c.target !in store.nodes || store.nodes[c.target].tenant != c.tenant { return Err(NotFound); }
      if canonical !in store.nodes || store.nodes[canonical].tenant != c.tenant { return Err(NotFound); }
      if c.target == canonical { return Err(SameEntity); }
      ghost var before, documents := store.State(), index.documents;
      ghost var rel := MergeEntities(c.target, canonical, c.tenant, now);
      MergeIsOutcome(before, documents, store.State(), index.documents, c, now);
      return Ok(());
    }

    method SplitOnRequest(c: Correction, now: Time) returns (r: Result<(), CorrectionError>)
      requires store.State().Keyed() && c.kind.EntitySplitInto?
      modifies store, index
      ensures IsOutcome(old(store.State()), old(index.documents), store.State(), index.documents, c, now, r)
      ensures store.State().Keyed()
      ensures old(IndexIsRight()) ==> IndexIsRight()
    {
      ghost var before, documents := store.State(), index.documents;
      if c.targetType != EntityTarget { return Err(WrongTargetType); }
      var split;
      ghost var plan;
      split, plan := SplitEntity(c.target, c.tenant, c.kind.targets, now);
      r := if split.Ok? then Ok(()) else Err(split.error);
      SplitIsOutcome(before, documents, store.State(), index.documents, c, now, split, plan, r);
    }

    /** Applies a human correction; refused ones leave no trace, and the index stays right whatever happens. */
    method ApplyCorrection(c: Correction, now: Time) returns (r: Result<(), CorrectionError>)
      requires store.State().Keyed()
      modifies store, index
      ensures !Accepted(old(store.State()), c) ==>
                r.Err? && store.State() == old(store.State()) && index.documents == old(index.documents)
      ensures Accepted(old(store.State()), c) ==>
                (r.Ok? <==> (c.kind.EntitySplitInto? ==> NoListedLoop(old(store.State()), c.kind.targets)))
      ensures IsCorrected(old(store.State()), store.State(), c, now)
      ensures Accepted(old(store.State()), c) ==> IsIndexed(index.documents, old(store.State()), store.State(), c)
      ensures store.State().Keyed()
      ensures old(IndexIsRight()) ==> IndexIsRight()
    {
      match c.kind
      case FactInvalidate => r := InvalidateOnRequest(c, now);
      case FactUpdate(_, _, _, _) => r := UpdateOnRequest(c, now);
      case EntityMerge(_) => r := MergeOnRequest(c, now);
      case EntitySplitInto(_) => r := SplitOnRequest(c, now);
      case OtherKind(_) => return Err(UnsupportedType);
    }
  }
}
