/** The FACT_SUPERSEDES_FACT edges of any ingest history: later to earlier, at most one into each fact, no cycles. */
module SupersessionOrder {
  import opened Common
  import opened GraphModel
  import opened GraphStore
  import opened Supersession
  import opened IngestRuns

  predicate IsSupersedes(rels: map<RelId, Rel>, r: RelId) {
    r.Plain? && r in rels && rels[r].typ == FactSupersedesFact
  }

  ghost predicate SamePlain(a: map<RelId, Rel>, b: map<RelId, Rel>) {
    forall r: RelId :: r.Plain? ==> (r in a <==> r in b) && (r in a ==> a[r] == b[r])
  }

  /** Storing facts only touches synthetic edges. */
  lemma {:induction false} WeighingKeepsEdges(g: Graph, incoming: Fact, priors: seq<Fact>, authority: Authority,
                                              clock: Time)
    ensures SamePlain(g.rels, WeighAll(g, incoming, priors, authority, clock).g.rels)
  {
    if priors != [] {
      WeighingKeepsEdges(g, incoming, priors[..|priors| - 1], authority, clock);
    }
  }

  // ---------- the edges one detection writes ----------

  /** Every edge to be written leaves the new fact for a distinct rival, superseding exactly the overruled ones. */
  ghost predicate PendingFits(pending: seq<Rel>, incoming: Fact, priors: seq<Fact>, authority: Authority, clock: Time) {
    && (forall i :: 0 <= i < |pending| ==> pending[i].src == incoming.id && Listed(priors, pending[i].dst))
    && (forall i, j :: 0 <= i < j < |pending| ==> pending[i].dst != pending[j].dst)
    && (forall k :: 0 <= k < |priors| ==>
          (Judge(priors[k], incoming, authority, clock) == Supersedes <==> SupersedesIn(pending, priors[k].id)))
  }

  ghost predicate SupersedesIn(pending: seq<Rel>, dst: Id) {
    exists i :: 0 <= i < |pending| && pending[i].dst == dst && pending[i].typ == FactSupersedesFact
  }

  lemma {:induction false} WeighedPending(g: Graph, incoming: Fact, priors: seq<Fact>, authority: Authority,
                                          clock: Time)
    requires forall i, j :: 0 <= i < j < |priors| ==> priors[i].id != priors[j].id
    ensures PendingFits(WeighAll(g, incoming, priors, authority, clock).pending, incoming, priors, authority, clock)
  {
    if priors != [] {
      var n := |priors| - 1;
      var init, last := priors[..n], priors[n];
      WeighedPending(g, incoming, init, authority, clock);
      WeighedClaim(g, incoming, init, authority, clock);
      var before := WeighAll(g, incoming, init, authority, clock);
      var after := WeighAll(g, incoming, priors, authority, clock);
      assert Judge(last, before.incoming, authority, clock) == Judge(last, incoming, authority, clock);
      PendingSnoc(before.pending, after.pending, incoming, init, last, authority, clock);
      SplitLast(priors);
    }
  }

  ghost predicate AddsEdge(before: seq<Rel>, after: seq<Rel>, typ: RelType, src: Id, dst: Id) {
    exists rel: Rel :: after == before + [rel] && rel.src == src && rel.dst == dst && rel.typ == typ
  }

  lemma PendingSnoc(before: seq<Rel>, after: seq<Rel>, incoming: Fact, init: seq<Fact>, last: Fact,
                    authority: Authority, clock: Time)
    requires PendingFits(before, incoming, init, authority, clock) && !Listed(init, last.id)
    requires match Judge(last, incoming, authority, clock)
             case Agrees => after == before
             case Yields => after == before
             case Supersedes => AddsEdge(before, after, FactSupersedesFact, incoming.id, last.id)
             case Contradicts => AddsEdge(before, after, FactContradictsFact, incoming.id, last.id)
    ensures PendingFits(after, incoming, init + [last], authority, clock)
  {
    var priors := init + [last];
    assert priors[|init|] == last && forall k :: 0 <= k < |init| ==> priors[k] == init[k];
    forall i | 0 <= i < |before| ensures before[i].dst != last.id {
      assert Listed(init, before[i].dst);
    }
    forall i | 0 <= i < |after| ensures after[i].src == incoming.id && Listed(priors, after[i].dst) {
      if i < |before| {
        var k :| 0 <= k < |init| && init[k].id == before[i].dst;
        assert priors[k].id == after[i].dst;
      } else {
        assert priors[|init|].id == after[i].dst;
      }
    }
    forall k | 0 <= k < |priors|
      ensures Judge(priors[k], incoming, authority, clock) == Supersedes <==> SupersedesIn(after, priors[k].id)
    {
      if k < |init| {
        assert priors[k].id != last.id;
        if SupersedesIn(before, init[k].id) {
          var i :| 0 <= i < |before| && before[i].dst == init[k].id && before[i].typ == FactSupersedesFact;
          assert after[i] == before[i];
        }
        if SupersedesIn(after, priors[k].id) {
          var i :| 0 <= i < |after| && after[i].dst == priors[k].id && after[i].typ == FactSupersedesFact;
          assert i < |before| && before[i] == after[i];
        }
      } else {
        if SupersedesIn(after, last.id) {
          var i :| 0 <= i < |after| && after[i].dst == last.id && after[i].typ == FactSupersedesFact;
          assert i == |before|;
        }
        if Judge(last, incoming, authority, clock) == Supersedes {
          assert after[|before|].dst == last.id && after[|before|].typ == FactSupersedesFact;
        }
      }
    }
  }

  ghost predicate WrittenBy(g: map<RelId, Rel>, after: map<RelId, Rel>, pending: seq<Rel>) {
    && (forall r :: r in g ==> r in after && after[r] == g[r])
    && (forall r :: r in after && r !in g ==> r.Plain? && after[r] in pending)
    && (forall rel :: rel in pending ==> exists r :: r in after && r !in g && after[r] == rel)
  }

  /** No two edges that are in `after` but not in `g` end at the same node. */
  ghost predicate DistinctTargets(g: map<RelId, Rel>, after: map<RelId, Rel>) {
    forall r, q :: r in after && q in after && r !in g && q !in g && after[r].dst == after[q].dst ==> r == q
  }

  lemma WrittenSnoc(g: map<RelId, Rel>, before: map<RelId, Rel>, pending: seq<Rel>, rel: Rel, id: RelId)
    requires WrittenBy(g, before, pending) && id.Plain? && id !in before
    ensures WrittenBy(g, before[id := rel], pending + [rel])
  {
    var after := before[id := rel];
    assert after[id] == rel && id !in g;
    forall x | x in pending ensures exists r :: r in after && r !in g && after[r] == x {
      var r :| r in before && r !in g && before[r] == x;
      assert after[r] == x;
    }
  }

  lemma DistinctSnoc(g: map<RelId, Rel>, before: map<RelId, Rel>, pending: seq<Rel>, rel: Rel, id: RelId)
    requires WrittenBy(g, before, pending) && DistinctTargets(g, before) && id !in before
    requires forall x :: x in pending ==> x.dst != rel.dst
    ensures DistinctTargets(g, before[id := rel])
  {}

  /** Writing edges under fresh ids adds one edge for each and disturbs none. */
  lemma {:induction false} PendingWritten(g: Graph, pending: seq<Rel>)
    requires forall i, j :: 0 <= i < j < |pending| ==> pending[i].dst != pending[j].dst
    ensures WrittenBy(g.rels, WithPending(g, pending).rels, pending)
    ensures DistinctTargets(g.rels, WithPending(g, pending).rels)
  {
    if pending != [] {
      var n := |pending| - 1;
      var before := WithPending(g, pending[..n]);
      PendingWritten(g, pending[..n]);
      SplitLast(pending);
      var id := FreshId(PlainIds(before.rels));
      assert Plain(id) in before.rels ==> id in PlainIds(before.rels);
      WrittenSnoc(g.rels, before.rels, pending[..n], pending[n], Plain(id));
      DistinctSnoc(g.rels, before.rels, pending[..n], pending[n], Plain(id));
    }
  }

  // ---------- one ingest ----------

  /** The rival `f` is overruled by the ingest. */
  predicate Overrules(f: Fact, e: Ingest) {
    IsRival(f, e.fact) && Judge(f, e.fact, e.authority, e.clock) == Supersedes
  }

  predicate IsAdded(before: map<RelId, Rel>, after: map<RelId, Rel>, r: RelId) {
    IsSupersedes(after, r) && !IsSupersedes(before, r)
  }

  /** The supersession edges after an ingest: the old ones, and one from the new fact to each fact it overruled. */
  ghost predicate EdgesStep(before: Graph, after: map<RelId, Rel>, e: Ingest) {
    && (forall r :: IsSupersedes(before.rels, r) ==> IsSupersedes(after, r) && after[r] == before.rels[r])
    && (forall r :: IsAdded(before.rels, after, r) ==> IsNewEdgeTo(before, after, e, r))
    && (forall r, q :: IsAdded(before.rels, after, r) && IsAdded(before.rels, after, q) ==>
          after[r].dst == after[q].dst ==> r == q)
    && (forall f :: f in before.facts && Overrules(before.facts[f], e) ==> HasEdge(after, e.fact.id, f))
  }

  ghost predicate IsNewEdgeTo(before: Graph, after: map<RelId, Rel>, e: Ingest, r: RelId)
    requires r in after
  {
    && after[r].src == e.fact.id
    && after[r].dst in before.facts
    && Overrules(before.facts[after[r].dst], e)
  }

  ghost predicate HasEdge(rels: map<RelId, Rel>, src: Id, dst: Id) {
    exists r :: IsSupersedes(rels, r) && rels[r].src == src && rels[r].dst == dst
  }

  ghost predicate Wrote(before: Graph, e: Ingest, stored: map<RelId, Rel>, after: map<RelId, Rel>, pending: seq<Rel>) {
    && ListsRivals(e.priors, before.facts, e.fact)
    && SamePlain(before.rels, stored) && WrittenBy(stored, after, pending)
    && PendingFits(pending, e.fact, e.priors, e.authority, e.clock)
  }

  lemma AddedEdgeIsNew(before: Graph, e: Ingest, stored: map<RelId, Rel>, after: map<RelId, Rel>, pending: seq<Rel>,
                       r: RelId)
    requires Wrote(before, e, stored, after, pending) && IsAdded(before.rels, after, r)
    ensures IsNewEdgeTo(before, after, e, r)
  {
    assert r !in stored;
    var i :| 0 <= i < |pending| && pending[i] == after[r];
    var k :| 0 <= k < |e.priors| && e.priors[k].id == after[r].dst;
    assert SupersedesIn(pending, e.priors[k].id);
  }

  lemma OverruledGetsEdge(before: Graph, e: Ingest, stored: map<RelId, Rel>, after: map<RelId, Rel>, pending: seq<Rel>,
                          f: Id)
    requires Wrote(before, e, stored, after, pending) && f in before.facts && Overrules(before.facts[f], e)
    requires forall x :: x in before.facts ==> before.facts[x].id == x
    ensures HasEdge(after, e.fact.id, f)
  {
    assert f in Rivals(before.facts, e.fact);
    var k :| 0 <= k < |e.priors| && e.priors[k].id == f;
    assert SupersedesIn(pending, f);
    var i :| 0 <= i < |pending| && pending[i].dst == f && pending[i].typ == FactSupersedesFact;
    assert pending[i] in pending;
    var r :| r in after && r !in stored && after[r] == pending[i];
    assert IsSupersedes(after, r);
  }

  lemma IngestEdges(before: Graph, e: Ingest)
    requires ListsRivals(e.priors, before.facts, e.fact)
    requires forall f :: f in before.facts ==> before.facts[f].id == f
    ensures EdgesStep(before, Detected(before, e.fact, e.priors, e.authority, e.clock).rels, e)
  {
    var w := WeighAll(before, e.fact, e.priors, e.authority, e.clock);
    var stored := WithFact(w.g, w.incoming);
    var after := Detected(before, e.fact, e.priors, e.authority, e.clock).rels;
    WeighingKeepsEdges(before, e.fact, e.priors, e.authority, e.clock);
    assert SamePlain(before.rels, stored.rels);
    WeighedPending(before, e.fact, e.priors, e.authority, e.clock);
    PendingWritten(stored, w.pending);
    forall r | IsAdded(before.rels, after, r) ensures IsNewEdgeTo(before, after, e, r) {
      AddedEdgeIsNew(before, e, stored.rels, after, w.pending, r);
    }
    forall f | f in before.facts && Overrules(before.facts[f], e) ensures HasEdge(after, e.fact.id, f) {
      OverruledGetsEdge(before, e, stored.rels, after, w.pending, f);
    }
  }

  // ---------- all ingests ----------

  /** The edge runs from a later ingest to an earlier one of the same key, whose interval it closed. */
  ghost predicate Closes(facts: map<Id, Fact>, history: seq<Ingest>, src: Id, dst: Id) {
    && src in facts && dst in facts && SameKey(facts[src], facts[dst])
    && facts[dst].status == Superseded && facts[dst].validTo == facts[src].validFrom
    && IsLaterIngest(history, src, dst)
  }

  ghost predicate IsLaterIngest(history: seq<Ingest>, src: Id, dst: Id) {
    exists i, j :: 0 <= i < j < |history| && history[i].fact.id == dst && history[j].fact.id == src
  }

  lemma LaterIngestStays(init: seq<Ingest>, e: Ingest, src: Id, dst: Id)
    requires IsLaterIngest(init, src, dst)
    ensures IsLaterIngest(init + [e], src, dst)
  {
    var i, j :| 0 <= i < j < |init| && init[i].fact.id == dst && init[j].fact.id == src;
    assert (init + [e])[i] == init[i] && (init + [e])[j] == init[j];
  }

  lemma LastIsLater(init: seq<Ingest>, e: Ingest, i: nat)
    requires i < |init|
    ensures IsLaterIngest(init + [e], e.fact.id, init[i].fact.id)
  {
    assert (init + [e])[i] == init[i] && (init + [e])[|init|] == e;
  }

  ghost predicate EdgesClose(g: Graph, history: seq<Ingest>) {
    forall r :: IsSupersedes(g.rels, r) ==> Closes(g.facts, history, g.rels[r].src, g.rels[r].dst)
  }

  ghost predicate AtMostOneInto(rels: map<RelId, Rel>) {
    forall r, q :: IsSupersedes(rels, r) && IsSupersedes(rels, q) && rels[r].dst == rels[q].dst ==> r == q
  }

  lemma StillCloses(before: map<Id, Fact>, after: map<Id, Fact>, init: seq<Ingest>, e: Ingest, incoming: Fact, src: Id,
                    dst: Id)
    requires Recorded(before, init) && Steps(before, after, e, incoming) && Closes(before, init, src, dst)
    ensures Closes(after, init + [e], src, dst)
  {
    NextKeepsClaim(before[dst], e);
    NextKeepsClaim(before[src], e);
    LaterIngestStays(init, e, src, dst);
  }

  lemma OverrulingCloses(before: map<Id, Fact>, after: map<Id, Fact>, init: seq<Ingest>, e: Ingest, incoming: Fact,
                         dst: Id)
    requires Recorded(before, init) && Steps(before, after, e, incoming) && dst in before && Overrules(before[dst], e)
    ensures Closes(after, init + [e], e.fact.id, dst)
  {
    NextKeepsClaim(before[dst], e);
    var i :| 0 <= i < |init| && init[i].fact.id == dst;
    LastIsLater(init, e, i);
  }

  lemma EdgesCloseStep(before: Graph, after: Graph, init: seq<Ingest>, e: Ingest, incoming: Fact)
    requires Recorded(before.facts, init) && Steps(before.facts, after.facts, e, incoming)
    requires EdgesClose(before, init) && EdgesStep(before, after.rels, e)
    ensures EdgesClose(after, init + [e])
  {
    forall r | IsSupersedes(after.rels, r)
        ensures Closes(after.facts, init + [e], after.rels[r].src, after.rels[r].dst) {
      assert IsSupersedes(before.rels, r) || IsAdded(before.rels, after.rels, r);
      if IsSupersedes(before.rels, r) {
        StillCloses(before.facts, after.facts, init, e, incoming, after.rels[r].src, after.rels[r].dst);
      } else {
        OverrulingCloses(before.facts, after.facts, init, e, incoming, after.rels[r].dst);
      }
    }
  }

  lemma AtMostOneStep(before: Graph, after: map<RelId, Rel>, e: Ingest)
    requires forall r :: IsSupersedes(before.rels, r) && before.rels[r].dst in before.facts ==>
               before.facts[before.rels[r].dst].status == Superseded
    requires AtMostOneInto(before.rels) && EdgesStep(before, after, e)
    ensures AtMostOneInto(after)
  {
    forall r, q | IsSupersedes(after, r) && IsSupersedes(after, q) && after[r].dst == after[q].dst ensures r == q {
      assert IsSupersedes(before.rels, r) || IsAdded(before.rels, after, r);
      assert IsSupersedes(before.rels, q) || IsAdded(before.rels, after, q);
    }
  }

  /** Supersession edges go from later to earlier ingests, closing their interval, and no fact has two coming in. */
  lemma {:induction false} EdgesAreSound(g: Graph, history: seq<Ingest>)
    requires EmptyStart(g) && LegalHistory(g, history)
    ensures EdgesClose(After(g, history), history)
    ensures AtMostOneInto(After(g, history).rels)
  {
    if history != [] {
      var init, e, incoming := LastIngest(g, history);
      EdgesAreSound(g, init);
      IngestEdges(After(g, init), e);
      EdgesCloseStep(After(g, init), After(g, history), init, e, incoming);
      AtMostOneStep(After(g, init), After(g, history).rels, e);
    }
  }

  ghost predicate IsOverruled(rels: map<RelId, Rel>, f: Id) {
    exists src :: HasEdge(rels, src, f)
  }

  lemma OverruledStep(before: Graph, after: Graph, e: Ingest, incoming: Fact, f: Id)
    requires Steps(before.facts, after.facts, e, incoming) && EdgesStep(before, after.rels, e)
    requires f in before.facts
             && (IsOverruled(before.rels, f)
                 || (before.facts[f].status == Current && after.facts[f].status == Superseded))
    ensures IsOverruled(after.rels, f)
  {
    if IsOverruled(before.rels, f) {
      var src :| HasEdge(before.rels, src, f);
      var r :| IsSupersedes(before.rels, r) && before.rels[r].src == src && before.rels[r].dst == f;
      assert HasEdge(after.rels, src, f);
    } else {
      assert HasEdge(after.rels, e.fact.id, f);
    }
  }

  lemma OnlyCurrentFactsChange(before: map<Id, Fact>, after: map<Id, Fact>, e: Ingest, incoming: Fact, f: Id)
    requires Steps(before, after, e, incoming) && f in before
    ensures before[f].status != Current ==> after[f] == before[f]
    ensures before[f].status == Current ==> after[f].status in {Current, Contradicted, Superseded}
  {}

  /** A stored fact that stopped being current by supersession has an edge that says by whom. */
  lemma {:induction false} SupersededHasEdge(g: Graph, history: seq<Ingest>, n: nat, f: Id)
    requires EmptyStart(g) && LegalHistory(g, history) && n <= |history|
    requires f in After(g, history[..n]).facts && After(g, history[..n]).facts[f].status == Current
    requires f in After(g, history).facts && After(g, history).facts[f].status == Superseded
    ensures IsOverruled(After(g, history).rels, f)
  {
    if n == |history| {
      TakeAll(history);
    } else {
      var init, e, incoming := LastIngest(g, history);
      TakeOfInit(history, n);
      PrefixFactsStay(g, init, n, f);
      IngestEdges(After(g, init), e);
      OnlyCurrentFactsChange(After(g, init).facts, After(g, history).facts, e, incoming, f);
      if After(g, init).facts[f].status == Superseded {
        SupersededHasEdge(g, init, n, f);
      }
      OverruledStep(After(g, init), After(g, history), e, incoming, f);
    }
  }

  lemma {:induction false} PrefixFactsStay(g: Graph, history: seq<Ingest>, n: nat, f: Id)
    requires EmptyStart(g) && LegalHistory(g, history) && n <= |history|
    requires f in After(g, history[..n]).facts
    ensures f in After(g, history).facts
  {
    if n == |history| {
      TakeAll(history);
    } else {
      var init, e, incoming := LastIngest(g, history);
      TakeOfInit(history, n);
      PrefixFactsStay(g, init, n, f);
    }
  }

  // ---------- no cycles ----------

  /** A chain of facts, each superseding the next. */
  ghost predicate Chain(rels: map<RelId, Rel>, path: seq<Id>) {
    forall k :: 0 <= k < |path| - 1 ==> HasEdge(rels, path[k], path[k + 1])
  }

  ghost function Position(history: seq<Ingest>, f: Id): (i: nat)
    requires Ingested(history, f)
    ensures i < |history| && history[i].fact.id == f
  {
    var i :| 0 <= i < |history| && history[i].fact.id == f;
    i
  }

  lemma {:induction false} ChainDescends(g: Graph, history: seq<Ingest>, path: seq<Id>)
    requires EmptyStart(g) && LegalHistory(g, history)
    requires |path| >= 2 && Chain(After(g, history).rels, path)
    ensures Ingested(history, path[0]) && Ingested(history, path[|path| - 1])
    ensures Position(history, path[0]) > Position(history, path[|path| - 1])
  {
    var n := |path| - 1;
    HistoryIsRecorded(g, history);
    EdgesAreSound(g, history);
    var after := After(g, history);
    assert HasEdge(after.rels, path[n - 1], path[n]);
    var r :| IsSupersedes(after.rels, r) && after.rels[r].src == path[n - 1] && after.rels[r].dst == path[n];
    assert Closes(after.facts, history, path[n - 1], path[n]);
    if n > 1 {
      assert Chain(after.rels, path[..n]) by {
        forall k | 0 <= k < n - 1 ensures HasEdge(after.rels, path[..n][k], path[..n][k + 1]) {
          assert HasEdge(after.rels, path[k], path[k + 1]);
        }
      }
      ChainDescends(g, history, path[..n]);
    }
  }

  /** No fact supersedes itself through any chain of others. */
  lemma SupersessionIsAcyclic(g: Graph, history: seq<Ingest>, path: seq<Id>)
    requires EmptyStart(g) && LegalHistory(g, history)
    requires |path| >= 2 && Chain(After(g, history).rels, path)
    ensures path[0] != path[|path| - 1]
  {
    ChainDescends(g, history, path);
  }
}

