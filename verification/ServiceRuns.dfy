/** Whole sequences of requests to the graph service, and what they leave in the search index. */
module ServiceRuns {
  import opened Common
  import opened GraphModel
  import opened GraphStore
  import opened ResolutionRuns
  import opened EntityResolution
  import opened Supersession
  import opened SearchIndex
  import opened GraphService

  datatype Request =
    | PutNode(node: Node, now: Time)
    | PutFact(fact: Fact, authority: Authority, now: Time)
    | PutRelationship(id: Id, rel: Rel)
    | Correct(correction: Correction, now: Time)
    | Resolve(tenant: Tenant, score: Scorer, now: Time)
    | Reindex(tenant: Tenant)

  /** Graph and index between two requests. */
  datatype Snapshot = Snapshot(graph: Graph, documents: map<DocKey, Resource>)

  /** The request takes over the id of a current row of another tenant. */
  predicate Strands(g: Graph, r: Request) {
    match r
    case PutNode(node, _) => StrandsNode(g, node)
    case PutFact(fact, _, _) => StrandsFact(g, fact)
    case _ => false
  }

  /** What the request does to the graph. */
  ghost predicate Follows(g: Graph, r: Request, after: Graph) {
    match r
    case PutNode(node, now) => after == WithNode(g, Stamped(node, now))
    case PutFact(fact, authority, now) =>
      exists priors :: ListsRivals(priors, g.facts, fact.(lastSeenAt := now))
                       && after == Detected(g, fact.(lastSeenAt := now), priors, authority, now)
    case PutRelationship(id, rel) => after == WithRel(g, id, rel)
    case Correct(c, now) => IsCorrected(g, after, c, now)
    case Resolve(tenant, _, now) =>
      exists steps :: LegalRun(g, tenant, Candidates(g, tenant), steps, now) && after == Run(g, tenant, steps, now)
    case Reindex(_) => after == g
  }

  ghost predicate IsRight(s: Snapshot) {
    InSync(s.documents, s.graph)
  }

  ghost predicate IsTrail(trail: seq<Snapshot>, requests: seq<Request>) {
    && |trail| == |requests| + 1
    && forall k :: 0 <= k < |requests| ==> Follows(trail[k].graph, requests[k], trail[k + 1].graph)
  }

  method Handle(service: GraphService, r: Request)
    requires service.Wired() && service.store.State().Keyed()
    modifies service.store, service.index
    ensures service.store.State().Keyed()
    ensures Follows(old(service.store.State()), r, service.store.State())
    ensures old(IsRight(SnapshotOf(service))) ==>
            (IsRight(SnapshotOf(service)) <==> !Strands(old(service.store.State()), r))
  {
    match r
    case PutNode(node, now) => service.IngestNode(node, now);
    case PutFact(fact, authority, now) =>
      ghost var priors := service.IngestFact(fact, authority, now);
    case PutRelationship(id, rel) => service.IngestRelationship(id, rel);
    case Correct(c, now) =>
      var answer := service.ApplyCorrection(c, now);
    case Resolve(tenant, score, now) =>
      ghost var steps;
      var report;
      report, steps := service.ResolveOutstandingEntities(tenant, score, now);
    case Reindex(tenant) => service.ReindexSearch(tenant);
  }

  ghost predicate RightThroughout(trail: seq<Snapshot>) {
    forall k :: 0 <= k < |trail| ==> IsRight(trail[k])
  }

  ghost predicate NothingStranded(trail: seq<Snapshot>, requests: seq<Request>)
    requires |trail| == |requests| + 1
  {
    forall k :: 0 <= k < |requests| ==> !Strands(trail[k].graph, requests[k])
  }

  /** The trail leads from `start` to `reached`, and the index stayed right along it exactly when nothing was
      stranded. */
  ghost predicate Leads(start: Snapshot, reached: Snapshot, trail: seq<Snapshot>, requests: seq<Request>) {
    && IsTrail(trail, requests) && trail[0] == start && trail[|requests|] == reached
    && (RightThroughout(trail) <==> NothingStranded(trail, requests))
  }

  lemma NoRequests(start: Snapshot)
    requires IsRight(start)
    ensures Leads(start, start, [start], [])
  {}

  lemma RightGrows(trail: seq<Snapshot>, s: Snapshot)
    ensures RightThroughout(trail + [s]) <==> RightThroughout(trail) && IsRight(s)
  {
    var longer := trail + [s];
    assert longer[|trail|] == s && forall k :: 0 <= k < |trail| ==> longer[k] == trail[k];
  }

  lemma StrandingGrows(trail: seq<Snapshot>, requests: seq<Request>, s: Snapshot, r: Request)
    requires |trail| == |requests| + 1
    ensures NothingStranded(trail + [s], requests + [r])
       <==> NothingStranded(trail, requests) && !Strands(trail[|requests|].graph, r)
  {
    var longer, more := trail + [s], requests + [r];
    assert more[|requests|] == r && forall k :: 0 <= k < |requests| ==> more[k] == requests[k];
    assert forall k :: 0 <= k < |trail| ==> longer[k] == trail[k];
  }

  lemma TrailGrows(trail: seq<Snapshot>, requests: seq<Request>, s: Snapshot, r: Request)
    requires IsTrail(trail, requests) && Follows(trail[|requests|].graph, r, s.graph)
    ensures IsTrail(trail + [s], requests + [r])
  {
    var longer, more := trail + [s], requests + [r];
    var n := |requests|;
    assert longer[n + 1] == s && longer[n] == trail[n] && more[n] == r;
    forall k | 0 <= k < n ensures Follows(longer[k].graph, more[k], longer[k + 1].graph) {
      assert longer[k] == trail[k] && longer[k + 1] == trail[k + 1] && more[k] == requests[k];
    }
  }

  lemma OneMoreRequest(start: Snapshot, before: Snapshot, after: Snapshot, trail: seq<Snapshot>, requests: seq<Request>,
                       r: Request)
    requires Leads(start, before, trail, requests) && Follows(before.graph, r, after.graph)
    requires IsRight(before) ==> (IsRight(after) <==> !Strands(before.graph, r))
    ensures Leads(start, after, trail + [after], requests + [r])
  {
    TrailGrows(trail, requests, after, r);
    RightGrows(trail, after);
    StrandingGrows(trail, requests, after, r);
  }

  ghost function SnapshotOf(service: GraphService): Snapshot
    reads service.store, service.index
  {
    Snapshot(service.store.State(), service.index.documents)
  }

  /** Starting from a right index, the index equals a rebuild after every request of the sequence exactly when no
      request
      takes over the id of a current row of another tenant. */
  method HandleAll(service: GraphService, requests: seq<Request>) returns (ghost trail: seq<Snapshot>)
    requires service.Wired() && service.store.State().Keyed() && service.IndexIsRight()
    modifies service.store, service.index
    ensures Leads(old(SnapshotOf(service)), SnapshotOf(service), trail, requests)
    ensures service.store.State().Keyed()
  {
    ghost var start := SnapshotOf(service);
    trail := [start];
    NoRequests(start);
    assert requests[..0] == [];
    var i := 0;
    while i < |requests|
      invariant 0 <= i <= |requests| && service.store.State().Keyed()
      invariant Leads(start, SnapshotOf(service), trail, requests[..i])
    {
      ghost var before := SnapshotOf(service);
      Handle(service, requests[i]);
      ghost var reached := SnapshotOf(service);
      TakeOneMore(requests, i);
      OneMoreRequest(start, before, reached, trail, requests[..i], requests[i]);
      trail := trail + [reached];
      i := i + 1;
    }
    TakeAll(requests);
  }
}
