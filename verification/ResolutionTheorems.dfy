/** What a whole resolution pass does: a quotient of the tenant's graph, with a star of merge edges on each survivor. */
module ResolutionTheorems {
  import opened Common
  import opened GraphModel
  import opened GraphStore
  import opened ResolutionRuns

  // ---------- nodes ----------

  /** Everything but aliases, status and update time. */
  ghost predicate SameIdentity(n: Node, m: Node) {
    n == m.(aliases := n.aliases, status := n.status, updatedAt := n.updatedAt)
  }

  ghost predicate NodesKept(g0: Graph, g: Graph, live: set<Id>, steps: seq<Step>) {
    g.nodes.Keys == g0.nodes.Keys && forall n :: n in g0.nodes ==>
        NodeKept(g0.nodes[n], g.nodes[n], n in live, Rep(steps, n) == n)
  }

  ghost predicate NodeKept(before: Node, after: Node, isLive: bool, isOwnRep: bool) {
    && SameIdentity(after, before)
    && (!isLive ==> after == before)
    && (isLive ==> after.status == if isOwnRep then Current else Superseded)
  }

  /** What one step does to the node table. */
  lemma NodesAfterStep(g: Graph, tenant: Tenant, s: Step, now: Time)
    requires g.Keyed() && (s.Merge? ==> s.canonical in g.nodes && s.duplicate in g.nodes && s.canonical != s.duplicate)
    ensures var after := ApplyStep(g, tenant, s, now).nodes;
            && after.Keys == g.nodes.Keys
            && (forall n :: n in after ==>
                 && after[n].id == n
                 && SameIdentity(after[n], g.nodes[n])
                 && after[n].status == (if s.Merge? && n == s.duplicate then Superseded else g.nodes[n].status)
                 && ((s.Merge? && n in {s.canonical, s.duplicate}) || after[n] == g.nodes[n]))
  {}

  /** The representatives after one more step. */
  lemma RepSnoc(init: seq<Step>, s: Step, x: Id)
    ensures Rep(init + [s], x) == if s.Merge? then Redirect(Rep(init, x), s.duplicate, s.canonical) else Rep(init, x)
  {
    assert (init + [s])[..|init + [s]| - 1] == init;
  }

  /** The last step of a run, as far as the node table is concerned. */
  lemma NodesKeptSnoc(g0: Graph, before: Graph, tenant: Tenant, live: set<Id>, init: seq<Step>, s: Step, now: Time)
    requires NodesKept(g0, before, live, init) && before.Keyed()
    requires s.Merge? ==>
               && s.canonical in live && s.duplicate in live && s.canonical != s.duplicate
               && s.canonical in before.nodes && s.duplicate in before.nodes
               && Rep(init, s.canonical) == s.canonical && Rep(init, s.duplicate) == s.duplicate
    ensures NodesKept(g0, ApplyStep(before, tenant, s, now), live, init + [s])
  {
    NodesAfterStep(before, tenant, s, now);
    var after := ApplyStep(before, tenant, s, now).nodes;
    forall n | n in g0.nodes ensures NodeKept(g0.nodes[n], after[n], n in live, Rep(init + [s], n) == n) {
      RepSnoc(init, s, n);
      assert NodeKept(g0.nodes[n], before.nodes[n], n in live, Rep(init, n) == n);
    }
  }

  /** A node is superseded exactly when it was merged away; nodes outside the pass are untouched. */
  lemma {:induction false} NodesAfterRun(g: Graph, tenant: Tenant, live: set<Id>, steps: seq<Step>, now: Time)
    requires Start(g, tenant, live) && LegalRun(g, tenant, live, steps, now)
    ensures NodesKept(g, Run(g, tenant, steps, now), live, steps)
  {
    if steps != [] {
      var init, s := steps[..|steps| - 1], steps[|steps| - 1];
      assert steps == init + [s];
      NodesAfterRun(g, tenant, live, init, now);
      KeysAfterRun(g, tenant, live, init, now);
      LiveIsOwnRep(g, tenant, live, init, now);
      NodesKeptSnoc(g, Run(g, tenant, init, now), tenant, live, init, s, now);
    }
  }

  lemma KeysAfterStep(g: Graph, tenant: Tenant, s: Step, now: Time)
    requires g.Keyed() && (s.Merge? ==> s.canonical in g.nodes && s.duplicate in g.nodes && s.canonical != s.duplicate)
    ensures ApplyStep(g, tenant, s, now).Keyed()
  {
    NodesAfterStep(g, tenant, s, now);
  }

  lemma PlainIdsAfterStep(g: Graph, tenant: Tenant, s: Step, now: Time)
    requires s.Merge? ==> s.canonical in g.nodes && s.duplicate in g.nodes
    ensures PlainIds(ApplyStep(g, tenant, s, now).rels) <= PlainIds(g.rels) + {s.rel}
  {}

  /** The store stays keyed by its own ids, and every ordinary edge id was there before or was generated by a step. */
  lemma {:induction false} KeysAfterRun(g: Graph, tenant: Tenant, live: set<Id>, steps: seq<Step>, now: Time)
    requires Start(g, tenant, live) && LegalRun(g, tenant, live, steps, now)
    ensures Run(g, tenant, steps, now).Keyed()
    ensures PlainIds(Run(g, tenant, steps, now).rels) <= UsedIds(g, steps)
  {
    if steps != [] {
      var init, s := steps[..|steps| - 1], steps[|steps| - 1];
      assert steps == init + [s];
      KeysAfterRun(g, tenant, live, init, now);
      UsedSnoc(g, init, s);
      KeysAfterStep(Run(g, tenant, init, now), tenant, s, now);
      PlainIdsAfterStep(Run(g, tenant, init, now), tenant, s, now);
    }
  }

  lemma RunSplits(g: Graph, tenant: Tenant, live: set<Id>, steps: seq<Step>, now: Time)
      returns (init: seq<Step>, s: Step, before: Graph)
    requires LegalRun(g, tenant, live, steps, now) && steps != []
    ensures |init| < |steps| && steps == init + [s] && LegalRun(g, tenant, live, init, now)
    ensures before == Run(g, tenant, init, now) && Run(g, tenant, steps, now) == ApplyStep(before, tenant, s, now)
    ensures LegalStep(before, Live(live, init), s, UsedIds(g, init))
  {
    init, s := steps[..|steps| - 1], steps[|steps| - 1];
    before := Run(g, tenant, init, now);
  }

  /** A merge of the pass: both nodes are live, of the tenant, and stand for themselves. */
  ghost predicate IsPassMerge(g: Graph, before: Graph, tenant: Tenant, live: set<Id>, init: seq<Step>, s: Step) {
    && s.Merge? && s.canonical != s.duplicate && s.canonical in live && s.duplicate in live && live <= g.nodes.Keys
    && s.canonical in before.nodes && s.duplicate in before.nodes && before.nodes[s.canonical].tenant == tenant
    && Wins(g.nodes[s.canonical], g.nodes[s.duplicate])
    && Rep(init, s.canonical) == s.canonical && Rep(init, s.duplicate) == s.duplicate
  }

  /** Everything the lemmas below need about the last step of a run. */
  lemma LastStep(g: Graph, tenant: Tenant, live: set<Id>, steps: seq<Step>, now: Time)
      returns (init: seq<Step>, s: Step, before: Graph)
    requires Start(g, tenant, live) && LegalRun(g, tenant, live, steps, now) && steps != []
    ensures |init| < |steps| && steps == init + [s]
    ensures LegalRun(g, tenant, live, init, now) && before == Run(g, tenant, init, now) && before.Keyed()
    ensures Run(g, tenant, steps, now) == ApplyStep(before, tenant, s, now)
    ensures Plain(s.rel) !in before.rels
    ensures s.Merge? ==> IsPassMerge(g, before, tenant, live, init, s)
    ensures forall y :: Rep(init, y) in live <==> y in live
    ensures forall y :: y !in live ==> Rep(init, y) == y
  {
    init, s, before := RunSplits(g, tenant, live, steps, now);
    KeysAfterRun(g, tenant, live, init, now);
    LiveIsOwnRep(g, tenant, live, init, now);
    if s.Merge? {
      NodesAfterRun(g, tenant, live, init, now);
      MergeIsOfPass(g, before, tenant, live, init, s);
    }
  }

  lemma MergeIsOfPass(g: Graph, before: Graph, tenant: Tenant, live: set<Id>, init: seq<Step>, s: Step)
    requires Start(g, tenant, live) && NodesKept(g, before, live, init) && s.Merge?
    requires LegalStep(before, Live(live, init), s, UsedIds(g, init))
    requires Rep(init, s.canonical) == s.canonical && Rep(init, s.duplicate) == s.duplicate
    ensures IsPassMerge(g, before, tenant, live, init, s)
  {
    assert SameIdentity(before.nodes[s.canonical], g.nodes[s.canonical]);
    assert SameIdentity(before.nodes[s.duplicate], g.nodes[s.duplicate]);
  }

  // ---------- facts ----------

  /** A fact with its owner replaced by the owner's survivor; only a moved fact is also marked as just seen. */
  ghost predicate FactQuotient(before: Fact, after: Fact, tenant: Tenant, steps: seq<Step>) {
    if before.tenant == tenant
    then after == before.(entity := Rep(steps, before.entity), lastSeenAt := after.lastSeenAt)
         && (Rep(steps, before.entity) == before.entity ==> after == before)
    else after == before
  }

  lemma FactQuotientSnoc(first: Fact, before: Fact, after: Fact, tenant: Tenant, init: seq<Step>, s: Step, now: Time)
    requires FactQuotient(first, before, tenant, init)
    requires after == if s.Merge? && MovesWith(before, tenant, s.duplicate) then Moved(before, s.canonical, now)
             else before
    requires s.Merge? ==>
               && Rep(init, s.canonical) == s.canonical && Rep(init, s.duplicate) == s.duplicate
               && s.canonical != s.duplicate
    ensures FactQuotient(first, after, tenant, init + [s])
  {
    RepSnoc(init, s, first.entity);
  }

  lemma FactsAfterStep(g: Graph, tenant: Tenant, s: Step, now: Time)
    requires s.Merge? ==> s.canonical in g.nodes && s.duplicate in g.nodes && g.nodes[s.canonical].tenant == tenant
    requires g.Keyed()
    ensures var after := ApplyStep(g, tenant, s, now).facts;
            && after.Keys == g.facts.Keys
            && forall f :: f in g.facts ==>
                 after[f] == if s.Merge? && MovesWith(g.facts[f], tenant, s.duplicate)
                     then Moved(g.facts[f], s.canonical, now)
                             else g.facts[f]
  {}

  lemma {:induction false} FactsAfterRun(g: Graph, tenant: Tenant, live: set<Id>, steps: seq<Step>, now: Time)
    requires Start(g, tenant, live) && LegalRun(g, tenant, live, steps, now)
    ensures FactsFollow(g, Run(g, tenant, steps, now).facts, tenant, steps)
  {
    if steps != [] {
      var init, s, before := LastStep(g, tenant, live, steps, now);
      FactsAfterRun(g, tenant, live, init, now);
      FactsAfterStep(before, tenant, s, now);
      var after := ApplyStep(before, tenant, s, now).facts;
      forall f | f in g.facts ensures FactQuotient(g.facts[f], after[f], tenant, steps) {
        FactQuotientSnoc(g.facts[f], before.facts[f], after[f], tenant, init, s, now);
      }
    }
  }

  // ---------- ordinary edges ----------

  /** An edge outlives the run unless a merge collapsed it: its endpoints stay apart, or it was a loop on a node
      that was never merged away. */
  predicate Outlives(rel: Rel, steps: seq<Step>) {
    Rep(steps, rel.src) != Rep(steps, rel.dst) || rel.src == rel.dst == Rep(steps, rel.src)
  }

  function EdgeQuotient(rel: Rel, steps: seq<Step>): Rel {
    rel.(src := Rep(steps, rel.src), dst := Rep(steps, rel.dst))
  }

  /** Every ordinary edge that was there before is redirected to survivors, or gone exactly when a merge collapsed
      it. */
  ghost predicate EdgesFollow(g: Graph, after: map<RelId, Rel>, tenant: Tenant, steps: seq<Step>) {
    forall r :: r in g.rels && r.Plain? ==> EdgeFollows(g.rels, after, tenant, steps, r)
  }

  ghost predicate EdgeFollows(rels: map<RelId, Rel>, after: map<RelId, Rel>, tenant: Tenant, steps: seq<Step>, r: RelId)
    requires r in rels
  {
    if rels[r].tenant == tenant
    then (r in after <==> Outlives(rels[r], steps)) && (r in after ==> after[r] == EdgeQuotient(rels[r], steps))
    else SameEntry(rels, after, r)
  }

  /** What one step does to an ordinary edge that it did not create. */
  ghost predicate EdgeStepped(before: map<RelId, Rel>, after: map<RelId, Rel>, tenant: Tenant, s: Step, r: RelId) {
    if s.Merge?
    then && (r in after <==> r in before && !Collapses(r, before[r], tenant, s.duplicate, s.canonical))
         && (r in after ==> after[r] == RedirectedRel(r, before[r], tenant, s.duplicate, s.canonical))
    else SameEntry(before, after, r)
  }

  lemma EdgeAfterStep(g: Graph, tenant: Tenant, s: Step, now: Time, r: RelId)
    requires r.Plain? && r != Plain(s.rel)
    requires s.Merge? ==> s.canonical in g.nodes && s.duplicate in g.nodes && g.nodes[s.canonical].tenant == tenant
    requires g.Keyed()
    ensures EdgeStepped(g.rels, ApplyStep(g, tenant, s, now).rels, tenant, s, r)
  {}

  lemma EdgeFollowsSnoc(rels: map<RelId, Rel>, before: map<RelId, Rel>, after: map<RelId, Rel>, tenant: Tenant,
                        init: seq<Step>, s: Step, r: RelId)
    requires r.Plain? && r in rels && EdgeFollows(rels, before, tenant, init, r)
             && EdgeStepped(before, after, tenant, s, r)
    requires s.Merge? ==>
               && Rep(init, s.canonical) == s.canonical && Rep(init, s.duplicate) == s.duplicate
               && s.canonical != s.duplicate
    ensures EdgeFollows(rels, after, tenant, init + [s], r)
  {
    RepSnoc(init, s, rels[r].src);
    RepSnoc(init, s, rels[r].dst);
  }

  lemma {:induction false} EdgesAfterRun(g: Graph, tenant: Tenant, live: set<Id>, steps: seq<Step>, now: Time)
    requires Start(g, tenant, live) && LegalRun(g, tenant, live, steps, now)
    ensures EdgesFollow(g, Run(g, tenant, steps, now).rels, tenant, steps)
  {
    if steps != [] {
      var init, s, before := LastStep(g, tenant, live, steps, now);
      EdgesAfterRun(g, tenant, live, init, now);
      var after := ApplyStep(before, tenant, s, now).rels;
      NewEdgeIsNew(g, tenant, live, steps, now, init, s);
      forall r | r in g.rels && r.Plain? ensures EdgeFollows(g.rels, after, tenant, steps, r) {
        EdgeAfterStep(before, tenant, s, now, r);
        EdgeFollowsSnoc(g.rels, before.rels, after, tenant, init, s, r);
      }
    }
  }

  /** The id of a step's own edge was never in the graph, not even as an edge that is gone by now. */
  lemma NewEdgeIsNew(g: Graph, tenant: Tenant, live: set<Id>, steps: seq<Step>, now: Time, init: seq<Step>, s: Step)
    requires LegalRun(g, tenant, live, steps, now) && steps == init + [s]
    ensures Plain(s.rel) !in g.rels
  {
    var rest, last, before := RunSplits(g, tenant, live, steps, now);
    assert last == steps[|steps| - 1] == s;
    assert Plain(s.rel) in g.rels ==> s.rel in PlainIds(g.rels);
  }

  // ---------- synthetic edges ----------

  predicate HasMoved(fact: Fact, tenant: Tenant, steps: seq<Step>) {
    fact.tenant == tenant && Rep(steps, fact.entity) != fact.entity
  }

  /** `owner` is the only node with an entity edge to the fact. */
  ghost predicate OnlyEntityEdge(rels: map<RelId, Rel>, fact: Fact, owner: Id) {
    && (forall e :: FactEdge(e, fact.id) in rels <==> e == owner)
    && rels[FactEdge(owner, fact.id)] == FactRel(fact, owner)
  }

  ghost predicate SameSourceEdges(a: map<RelId, Rel>, b: map<RelId, Rel>, f: Id) {
    forall q :: SameEntry(a, b, SourceEdge(f, q))
  }

  ghost predicate SameEntityEdges(a: map<RelId, Rel>, b: map<RelId, Rel>, f: Id) {
    forall e :: SameEntry(a, b, FactEdge(e, f))
  }

  lemma EntityEdgesAfterStep(g: Graph, tenant: Tenant, s: Step, now: Time, f: Id)
    requires g.Keyed()
    requires s.Merge? ==> s.canonical in g.nodes && s.duplicate in g.nodes && g.nodes[s.canonical].tenant == tenant
    ensures if s.Merge? && f in g.facts && MovesWith(g.facts[f], tenant, s.duplicate)
            then OnlyEntityEdge(ApplyStep(g, tenant, s, now).rels, g.facts[f], s.canonical)
            else SameEntityEdges(g.rels, ApplyStep(g, tenant, s, now).rels, f)
  {}

  lemma SourceEdgesAfterStep(g: Graph, tenant: Tenant, s: Step, now: Time, f: Id)
    requires g.Keyed()
    requires s.Merge? ==> s.canonical in g.nodes && s.duplicate in g.nodes && g.nodes[s.canonical].tenant == tenant
    ensures SameSourceEdges(g.rels, ApplyStep(g, tenant, s, now).rels, f)
  {}

  ghost predicate EntityEdgesFollow(g: Graph, after: map<RelId, Rel>, tenant: Tenant, steps: seq<Step>, f: Id) {
    if f in g.facts && HasMoved(g.facts[f], tenant, steps)
    then OnlyEntityEdge(after, g.facts[f], Rep(steps, g.facts[f].entity))
    else SameEntityEdges(g.rels, after, f)
  }

  lemma EntityEdgesFollowStep(g: Graph, before: Graph, after: map<RelId, Rel>, tenant: Tenant,
                              init: seq<Step>, s: Step, f: Id)
    requires EntityEdgesFollow(g, before.rels, tenant, init, f)
    requires f in before.facts <==> f in g.facts
    requires f in g.facts ==> g.facts[f].id == f && FactQuotient(g.facts[f], before.facts[f], tenant, init)
    requires f in g.facts && s.Merge? && Rep(init, g.facts[f].entity) == s.duplicate ==>
               g.facts[f].entity != s.canonical
    requires s.Merge? ==> s.canonical != s.duplicate
    requires if s.Merge? && f in before.facts && MovesWith(before.facts[f], tenant, s.duplicate)
             then OnlyEntityEdge(after, before.facts[f], s.canonical)
             else SameEntityEdges(before.rels, after, f)
    ensures EntityEdgesFollow(g, after, tenant, init + [s], f)
  {
    assert (init + [s])[..|init + [s]| - 1] == init;
  }

  /** A moved fact keeps exactly one entity edge, from its survivor; every other synthetic edge is unchanged. */
  lemma {:induction false} FactEdgesAfterRun(
      g: Graph, tenant: Tenant, live: set<Id>, steps: seq<Step>, now: Time, f: Id)
    requires Start(g, tenant, live) && LegalRun(g, tenant, live, steps, now)
    ensures EntityEdgesFollow(g, Run(g, tenant, steps, now).rels, tenant, steps, f)
    ensures SameSourceEdges(g.rels, Run(g, tenant, steps, now).rels, f)
  {
    if steps != [] {
      var init, s, before := LastStep(g, tenant, live, steps, now);
      FactEdgesAfterRun(g, tenant, live, init, now, f);
      FactsAfterRun(g, tenant, live, init, now);
      EntityEdgesAfterStep(before, tenant, s, now, f);
      SourceEdgesAfterStep(before, tenant, s, now, f);
      EntityEdgesFollowStep(g, before, ApplyStep(before, tenant, s, now).rels, tenant, init, s, f);
    }
  }

  // ---------- merge edges ----------

  predicate IsMergeEdge(rels: map<RelId, Rel>, r: RelId, tenant: Tenant, src: Id) {
    r in rels && r.Plain? && rels[r].tenant == tenant && rels[r].typ == EntityMergedInto && rels[r].src == src
  }

  ghost predicate NoMergeEdgeFrom(rels: map<RelId, Rel>, tenant: Tenant, src: Id) {
    forall r :: !IsMergeEdge(rels, r, tenant, src)
  }

  /** `r` is the one merge edge out of `src`, and it leads to `dst`. */
  ghost predicate OnlyMergeEdge(rels: map<RelId, Rel>, r: RelId, tenant: Tenant, src: Id, dst: Id) {
    && IsMergeEdge(rels, r, tenant, src)
    && rels[r].dst == dst
    && forall q :: IsMergeEdge(rels, q, tenant, src) ==> q == r
  }

  /** The edge recorded when `x` was merged away. */
  function MergeEdgeOf(steps: seq<Step>, x: Id): RelId {
    if steps == [] then Plain(0)
    else
      var s := steps[|steps| - 1];
      if s.Merge? && s.duplicate == x then Plain(s.rel) else MergeEdgeOf(steps[..|steps| - 1], x)
  }

  ghost predicate PointsAtSurvivor(rels: map<RelId, Rel>, tenant: Tenant, steps: seq<Step>, x: Id) {
    if Rep(steps, x) == x then NoMergeEdgeFrom(rels, tenant, x)
    else OnlyMergeEdge(rels, MergeEdgeOf(steps, x), tenant, x, Rep(steps, x))
  }

  lemma MergeEdgesAfterStep(g: Graph, tenant: Tenant, s: Step, now: Time, x: Id)
    requires g.Keyed() && Plain(s.rel) !in g.rels
    requires s.Merge? ==> s.canonical in g.nodes && s.duplicate in g.nodes && g.nodes[s.canonical].tenant == tenant
    requires s.Merge? ==> s.canonical != s.duplicate
                          && NoMergeEdgeFrom(g.rels, tenant, s.canonical)
                               && NoMergeEdgeFrom(g.rels, tenant, s.duplicate)
    ensures var after := ApplyStep(g, tenant, s, now).rels;
            if s.Merge? && s.duplicate == x then OnlyMergeEdge(after, Plain(s.rel), tenant, x, s.canonical)
            else forall r :: && (IsMergeEdge(after, r, tenant, x) <==> IsMergeEdge(g.rels, r, tenant, x))
                             && (IsMergeEdge(after, r, tenant, x) ==>
                                   after[r].dst == if s.Merge? then Redirect(g.rels[r].dst, s.duplicate, s.canonical)
                                                   else g.rels[r].dst)
  {
    if s.Merge? {
      forall r ensures !IsMergeEdge(g.rels, r, tenant, s.canonical) && !IsMergeEdge(g.rels, r, tenant, s.duplicate) {}
    }
  }

  /** When no node of the pass starts with a merge edge, a merged node ends with exactly one, straight to its
      survivor. */
  lemma {:induction false} StarAfterRun(
      g: Graph, tenant: Tenant, live: set<Id>, steps: seq<Step>, now: Time, x: Id)
    requires Start(g, tenant, live) && LegalRun(g, tenant, live, steps, now)
    requires forall n :: n in live ==> NoMergeEdgeFrom(g.rels, tenant, n)
    requires x in live
    ensures PointsAtSurvivor(Run(g, tenant, steps, now).rels, tenant, steps, x)
    ensures Rep(steps, Rep(steps, x)) == Rep(steps, x)
  {
    LiveIsOwnRep(g, tenant, live, steps, now);
    if steps != [] {
      var init, s, before := LastStep(g, tenant, live, steps, now);
      StarAfterRun(g, tenant, live, init, now, x);
      if s.Merge? {
        StarAfterRun(g, tenant, live, init, now, s.canonical);
        StarAfterRun(g, tenant, live, init, now, s.duplicate);
      }
      MergeEdgesAfterStep(before, tenant, s, now, x);
    }
  }

  /** A match that is not sure enough only adds an alias edge for review. */
  lemma ReviewIsRecorded(g: Graph, tenant: Tenant, s: Step, now: Time)
    requires s.Review?
    ensures var after := ApplyStep(g, tenant, s, now);
            && after.nodes == g.nodes && after.facts == g.facts && after.rels.Keys == g.rels.Keys + {Plain(s.rel)}
            && (forall r :: r in g.rels && r != Plain(s.rel) ==> after.rels[r] == g.rels[r])
            && var rel := after.rels[Plain(s.rel)];
               rel.tenant == tenant && rel.typ == EntityAliasOf && rel.src == s.first && rel.dst == s.second
               && rel.confidence == s.confidence && rel.status == Current
  {}

  // ---------- the names of a cluster ----------

  /** Every name and alias any member of the cluster of `survivor` started with. */
  ghost function ClusterNames(g: Graph, live: set<Id>, steps: seq<Step>, survivor: Id): set<string>
    requires live <= g.nodes.Keys
  {
    set x, name | x in live && Rep(steps, x) == survivor && name in Names(g.nodes[x]) :: name
  }

  lemma NamesAfterStep(g: Graph, tenant: Tenant, s: Step, now: Time)
    requires g.Keyed()
    requires s.Merge? && s.canonical in g.nodes && s.duplicate in g.nodes && s.canonical != s.duplicate
    ensures var after := ApplyStep(g, tenant, s, now).nodes;
            && s.canonical in after
            && Names(after[s.canonical]) == Names(g.nodes[s.canonical]) + Names(g.nodes[s.duplicate])
  {
    var c, d := g.nodes[s.canonical], g.nodes[s.duplicate];
    ElementsOfConcat(c.aliases, [d.name]);
    ElementsOfConcat(c.aliases + [d.name], d.aliases);
    assert ApplyStep(g, tenant, s, now).nodes[s.canonical].aliases == MergedAliases(c, d);
  }

  lemma ClusterGrows(g: Graph, live: set<Id>, init: seq<Step>, s: Step, x: Id)
    requires live <= g.nodes.Keys
    requires s.Merge? ==> s.duplicate != x && s.duplicate != s.canonical
    ensures ClusterNames(g, live, init + [s], x)
         == ClusterNames(g, live, init, x)
            + (if s.Merge? && s.canonical == x then ClusterNames(g, live, init, s.duplicate) else {})
  {
    assert (init + [s])[..|init + [s]| - 1] == init;
  }

  lemma NamesKeptSnoc(g0: Graph, before: Graph, tenant: Tenant, live: set<Id>, init: seq<Step>, s: Step, now: Time,
                      x: Id)
    requires before.Keyed() && live <= g0.nodes.Keys && x in before.nodes
    requires s.Merge? ==>
               && s.canonical in before.nodes && s.duplicate in before.nodes
               && s.canonical != s.duplicate && s.duplicate != x
    requires Names(before.nodes[x]) == ClusterNames(g0, live, init, x)
    requires s.Merge? && s.canonical == x ==>
             Names(before.nodes[s.duplicate]) == ClusterNames(g0, live, init, s.duplicate)
    ensures x in ApplyStep(before, tenant, s, now).nodes
    ensures Names(ApplyStep(before, tenant, s, now).nodes[x]) == ClusterNames(g0, live, init + [s], x)
  {
    ClusterGrows(g0, live, init, s, x);
    if s.Merge? && s.canonical == x {
      NamesAfterStep(before, tenant, s, now);
    } else {
      NodesAfterStep(before, tenant, s, now);
    }
  }

  /** A survivor answers to exactly the names its cluster's members had. */
  lemma {:induction false} SurvivorKeepsNames(
      g: Graph, tenant: Tenant, live: set<Id>, steps: seq<Step>, now: Time, x: Id)
    requires Start(g, tenant, live) && LegalRun(g, tenant, live, steps, now)
    requires x in live && Rep(steps, x) == x
    ensures x in Run(g, tenant, steps, now).nodes
    ensures Names(Run(g, tenant, steps, now).nodes[x]) == ClusterNames(g, live, steps, x)
  {
    if steps == [] {
    } else {
      var init, s, before := LastStep(g, tenant, live, steps, now);
      SurvivorKeepsNames(g, tenant, live, init, now, x);
      if s.Merge? && s.canonical == x { SurvivorKeepsNames(g, tenant, live, init, now, s.duplicate); }
      NamesKeptSnoc(g, before, tenant, live, init, s, now, x);
    }
  }

  // ---------- the whole pass ----------

  /** `after` is `g` with every node of the tenant replaced by its survivor wherever a fact or an edge mentions it. */
  ghost predicate Quotient(g: Graph, after: Graph, tenant: Tenant, live: set<Id>, steps: seq<Step>) {
    && NodesKept(g, after, live, steps)
    && FactsFollow(g, after.facts, tenant, steps)
    && EdgesFollow(g, after.rels, tenant, steps)
    && SyntheticEdgesFollow(g, after.rels, tenant, steps)
  }

  /** Each node of the pass is its own survivor or hangs by its one merge edge on a survivor that was never merged. */
  ghost predicate StarForest(after: map<RelId, Rel>, tenant: Tenant, live: set<Id>, steps: seq<Step>) {
    forall x :: x in live ==>
      && Rep(steps, x) in live
      && Rep(steps, Rep(steps, x)) == Rep(steps, x)
      && PointsAtSurvivor(after, tenant, steps, x)
  }

  ghost predicate SyntheticEdgesFollow(g: Graph, after: map<RelId, Rel>, tenant: Tenant, steps: seq<Step>) {
    && (forall f :: EntityEdgesFollow(g, after, tenant, steps, f))
    && (forall f :: SameSourceEdges(g.rels, after, f))
  }

  ghost predicate FactsFollow(g: Graph, after: map<Id, Fact>, tenant: Tenant, steps: seq<Step>) {
    && after.Keys == g.facts.Keys
    && forall f :: f in g.facts ==> FactQuotient(g.facts[f], after[f], tenant, steps)
  }

  lemma SyntheticEdgesAfterRun(g: Graph, tenant: Tenant, live: set<Id>, steps: seq<Step>, now: Time, after: map<RelId,
                               Rel>)
    requires Start(g, tenant, live) && LegalRun(g, tenant, live, steps, now)
    requires after == Run(g, tenant, steps, now).rels
    ensures SyntheticEdgesFollow(g, after, tenant, steps)
  {
    forall f
      ensures EntityEdgesFollow(g, after, tenant, steps, f)
      ensures SameSourceEdges(g.rels, after, f)
    {
      FactEdgesAfterRun(g, tenant, live, steps, now, f);
    }
  }

  lemma RunIsQuotient(g: Graph, tenant: Tenant, live: set<Id>, steps: seq<Step>, now: Time)
    requires Start(g, tenant, live) && LegalRun(g, tenant, live, steps, now)
    ensures Quotient(g, Run(g, tenant, steps, now), tenant, live, steps)
    ensures Run(g, tenant, steps, now).Keyed()
  {
    NodesAfterRun(g, tenant, live, steps, now);
    KeysAfterRun(g, tenant, live, steps, now);
    FactsAfterRun(g, tenant, live, steps, now);
    EdgesAfterRun(g, tenant, live, steps, now);
    SyntheticEdgesAfterRun(g, tenant, live, steps, now, Run(g, tenant, steps, now).rels);
  }

  lemma RunIsStarForest(g: Graph, tenant: Tenant, live: set<Id>, steps: seq<Step>, now: Time)
    requires Start(g, tenant, live) && LegalRun(g, tenant, live, steps, now)
    requires forall n :: n in live ==> NoMergeEdgeFrom(g.rels, tenant, n)
    ensures StarForest(Run(g, tenant, steps, now).rels, tenant, live, steps)
  {
    LiveIsOwnRep(g, tenant, live, steps, now);
    forall x | x in live
      ensures PointsAtSurvivor(Run(g, tenant, steps, now).rels, tenant, steps, x)
      ensures Rep(steps, Rep(steps, x)) == Rep(steps, x)
    {
      StarAfterRun(g, tenant, live, steps, now, x);
    }
  }
}
