/** What an ingest does, stated on dates and authorities alone: who overrules whom, and what becomes of the new fact. */
module SupersessionRules {
  import opened Common
  import opened GraphModel
  import opened GraphStore
  import opened Supersession
  import opened IngestRuns
  import opened SupersessionOrder

  /** The new fact starts after the old one; without a date a new fact starts now and an old one at the epoch. */
  predicate StartsLater(e: Ingest, f: Fact) {
    match (e.fact.validFrom, f.validFrom)
    case (At(a), At(b)) => a > b
    case (At(a), Absent) => a > 0
    case (Absent, At(b)) => e.clock > b
    case (Absent, Absent) => e.clock > 0
    case _ => false
  }

  predicate StartsTogether(e: Ingest, f: Fact) {
    match (e.fact.validFrom, f.validFrom)
    case (At(a), At(b)) => a == b
    case (At(a), Absent) => a == 0
    case (Absent, At(b)) => e.clock == b
    case (Absent, Absent) => e.clock == 0
    case _ => false
  }

  /** By how much the new fact's source outranks the old one's; a source without an entry counts one half. */
  function Margin(e: Ingest, f: Fact): real {
    (if e.fact.source in e.authority then e.authority[e.fact.source] else 0.5)
      - (if f.source in e.authority then e.authority[f.source] else 0.5)
  }

  /** A current fact of the same tenant, entity and predicate that says something else. */
  predicate Disagrees(e: Ingest, f: Fact) {
    && f.status == Current && f.tenant == e.fact.tenant && f.entity == e.fact.entity && f.attribute == e.fact.attribute
    && WordsOf(f.value) != WordsOf(e.fact.value)
  }

  /** A text speaks for itself, any other value through its rendering. */
  function WordsOf(value: Value): string {
    match value
    case Text(text) => text
    case Json(rendering) => rendering
  }

  /** A later date always prevails; an earlier or unreadable one only with strictly higher authority. */
  predicate Prevails(e: Ingest, f: Fact) {
    StartsLater(e, f) || (!StartsTogether(e, f) && Margin(e, f) > 0.0)
  }

  predicate Clashes(e: Ingest, f: Fact) {
    StartsTogether(e, f) && -0.05 < Margin(e, f) < 0.05
  }

  lemma JudgedByTheRules(e: Ingest, f: Fact)
    requires f.value.Rendered() != e.fact.value.Rendered()
    ensures Judge(f, e.fact, e.authority, e.clock)
         == if Prevails(e, f) then Supersedes else if Clashes(e, f) then Contradicts else Yields
  {}

  // ---------- the old facts ----------

  /** What becomes of a stored fact: closed by a fact that prevails, contradicted in a clash, else left as it is. */
  ghost predicate FollowsRules(before: Fact, after: Fact, e: Ingest) {
    after == if Disagrees(e, before) && Prevails(e, before)
             then before.(status := Superseded, validTo := e.fact.validFrom, recordedTo := e.fact.recordedFrom)
             else if Disagrees(e, before) && Clashes(e, before) then before.(status := Contradicted)
             else before
  }

  lemma OldFactFollowsRules(before: map<Id, Fact>, after: map<Id, Fact>, e: Ingest, incoming: Fact, f: Id)
    requires Steps(before, after, e, incoming) && f in before
    ensures FollowsRules(before[f], after[f], e)
  {
    if before[f].value.Rendered() != e.fact.value.Rendered() { JudgedByTheRules(e, before[f]); }
  }

  /** The new fact stays current exactly when it prevails over every current fact it disagrees with. */
  lemma NewFactFollowsRules(before: map<Id, Fact>, after: map<Id, Fact>, e: Ingest, incoming: Fact)
    requires Steps(before, after, e, incoming)
    ensures after[e.fact.id].status == Current <==>
              forall f :: f in before && Disagrees(e, before[f]) ==> Prevails(e, before[f])
    ensures after[e.fact.id].status == Current ==> after[e.fact.id] == e.fact
  {
    forall f | f in before ensures DefeatedBy(before[f], e) <==> Disagrees(e, before[f]) && !Prevails(e, before[f]) {
      if before[f].value.Rendered() != e.fact.value.Rendered() { JudgedByTheRules(e, before[f]); }
    }
  }

  // ---------- a single opponent ----------

  /** What becomes of a new fact that disagrees with this one fact only. */
  function AgainstOne(e: Ingest, f: Fact): Fact {
    if Prevails(e, f) then e.fact
    else if Clashes(e, f) then e.fact.(status := Contradicted)
    else e.fact.(status := Superseded, validTo := f.validFrom, recordedTo := f.recordedFrom)
  }

  lemma {:induction false} WeighedAgainstOne(g: Graph, e: Ingest, priors: seq<Fact>, f: Fact)
    requires Disagrees(e, f)
    requires forall k :: 0 <= k < |priors| ==> priors[k] == f || priors[k].value.Rendered() == e.fact.value.Rendered()
    requires forall i, j :: 0 <= i < j < |priors| ==> priors[i] != priors[j]
    ensures WeighAll(g, e.fact, priors, e.authority, e.clock).incoming
         == if f in priors then AgainstOne(e, f) else e.fact
  {
    if priors != [] {
      var n := |priors| - 1;
      SplitLast(priors);
      WeighedAgainstOne(g, e, priors[..n], f);
      JudgedByTheRules(e, f);
    }
  }

  /** A new fact with one opponent: the later one wins, an earlier new one only by authority, and equals clash. */
  lemma OneOpponent(g: Graph, e: Ingest, f: Id)
    requires e.fact.status == Current && e.fact.id !in g.facts && ListsRivals(e.priors, g.facts, e.fact)
    requires forall x :: x in g.facts ==> g.facts[x].id == x
    requires f in g.facts && Disagrees(e, g.facts[f])
    requires forall x :: x in g.facts && x != f ==> !Disagrees(e, g.facts[x])
    ensures var after := Detected(g, e.fact, e.priors, e.authority, e.clock).facts;
            && e.fact.id in after && after[e.fact.id] == AgainstOne(e, g.facts[f])
            && f in after && FollowsRules(g.facts[f], after[f], e)
            && forall x :: x in g.facts && x != f ==> x in after && after[x] == g.facts[x]
  {
    var incoming := IngestOne(g, e);
    var after := Detected(g, e.fact, e.priors, e.authority, e.clock).facts;
    forall x | x in g.facts ensures FollowsRules(g.facts[x], after[x], e) {
      OldFactFollowsRules(g.facts, after, e, incoming, x);
    }
    assert f in Rivals(g.facts, e.fact);
    OpponentIsListed(g, e, f);
    WeighedAgainstOne(g, e, e.priors, g.facts[f]);
    DetectedFact(g, e.fact, e.priors, e.authority, e.clock, f);
  }

  lemma OpponentIsListed(g: Graph, e: Ingest, f: Id)
    requires ListsRivals(e.priors, g.facts, e.fact) && f in Rivals(g.facts, e.fact)
    ensures g.facts[f] in e.priors
  {
    var k :| 0 <= k < |e.priors| && e.priors[k].id == f;
    assert e.priors[k] == g.facts[f];
  }

  // ---------- histories ----------

  /** The fact `src` was ingested after `dst`, disagreed with it, and prevailed by date or by authority. */
  ghost predicate PrevailedOver(history: seq<Ingest>, src: Id, dst: Id) {
    exists i, j :: 0 <= i < j < |history| && history[i].fact.id == dst && history[j].fact.id == src
                   && Disagrees(history[j], history[i].fact) && Prevails(history[j], history[i].fact)
  }

  lemma PrevailedStays(init: seq<Ingest>, e: Ingest, src: Id, dst: Id)
    requires PrevailedOver(init, src, dst)
    ensures PrevailedOver(init + [e], src, dst)
  {
    var i, j :| 0 <= i < j < |init| && init[i].fact.id == dst && init[j].fact.id == src
                && Disagrees(init[j], init[i].fact) && Prevails(init[j], init[i].fact);
    assert (init + [e])[i] == init[i] && (init + [e])[j] == init[j];
  }

  lemma OverrulesByTheRules(f: Fact, e: Ingest)
    requires f.id != e.fact.id
    ensures Overrules(f, e) <==> Disagrees(e, f) && Prevails(e, f)
  {
    if f.value.Rendered() != e.fact.value.Rendered() { JudgedByTheRules(e, f); }
  }

  lemma NewestPrevailed(before: map<Id, Fact>, init: seq<Ingest>, e: Ingest, dst: Id)
    requires Recorded(before, init) && dst in before && e.fact.id !in before && Overrules(before[dst], e)
    requires forall i :: 0 <= i < |init| ==> init[i].fact.status == Current
    ensures PrevailedOver(init + [e], e.fact.id, dst)
  {
    var i :| 0 <= i < |init| && init[i].fact.id == dst;
    OverrulesByTheRules(before[dst], e);
    assert SameClaim(before[dst], init[i].fact);
    assert (init + [e])[i] == init[i] && (init + [e])[|init|] == e;
  }

  lemma LastIsCurrent(g: Graph, history: seq<Ingest>) returns (init: seq<Ingest>, e: Ingest)
    requires EmptyStart(g) && LegalHistory(g, history) && history != []
    ensures |init| == |history| - 1 && history == init + [e] && LegalHistory(g, init) && e.fact.status == Current
  {
    var incoming;
    init, e, incoming := LastIngest(g, history);
  }

  lemma {:induction false} AllIngestedCurrent(g: Graph, history: seq<Ingest>)
    requires EmptyStart(g) && LegalHistory(g, history)
    ensures forall i :: 0 <= i < |history| ==> history[i].fact.status == Current
  {
    if history != [] {
      var init, e := LastIsCurrent(g, history);
      AllIngestedCurrent(g, init);
    }
  }

  lemma EdgeOfStep(before: Graph, after: map<RelId, Rel>, init: seq<Ingest>, e: Ingest, r: RelId)
    requires Recorded(before.facts, init) && e.fact.id !in before.facts && EdgesStep(before, after, e)
    requires forall i :: 0 <= i < |init| ==> init[i].fact.status == Current
    requires IsSupersedes(after, r)
    requires IsSupersedes(before.rels, r) ==> PrevailedOver(init, before.rels[r].src, before.rels[r].dst)
    ensures PrevailedOver(init + [e], after[r].src, after[r].dst)
  {
    if IsSupersedes(before.rels, r) {
      PrevailedStays(init, e, after[r].src, after[r].dst);
    } else {
      assert IsAdded(before.rels, after, r);
      NewestPrevailed(before.facts, init, e, after[r].dst);
    }
  }

  /** Over every history, whoever supersedes another fact disagreed with it and was later, or was not of the same date
      and had strictly higher authority. */
  lemma {:induction false} EdgesFollowRules(g: Graph, history: seq<Ingest>, r: RelId)
    requires EmptyStart(g) && LegalHistory(g, history) && IsSupersedes(After(g, history).rels, r)
    ensures PrevailedOver(history, After(g, history).rels[r].src, After(g, history).rels[r].dst)
  {
    if history != [] {
      var init, e, incoming := LastIngest(g, history);
      IngestEdges(After(g, init), e);
      AllIngestedCurrent(g, init);
      if IsSupersedes(After(g, init).rels, r) { EdgesFollowRules(g, init, r); }
      EdgeOfStep(After(g, init), After(g, history).rels, init, e, r);
    }
  }

  lemma NewEdgesOfStep(before: Graph, after: map<RelId, Rel>, init: seq<Ingest>, e: Ingest, f: Id)
    requires EdgesClose(before, init) && e.fact.id !in before.facts && EdgesStep(before, after, e)
    requires f in before.facts && before.facts[f].id == f
    ensures HasEdge(after, e.fact.id, f) <==> Disagrees(e, before.facts[f]) && Prevails(e, before.facts[f])
  {
    OverrulesByTheRules(before.facts[f], e);
    forall r | IsSupersedes(before.rels, r) ensures before.rels[r].src != e.fact.id {
      assert Closes(before.facts, init, before.rels[r].src, before.rels[r].dst);
    }
    forall r | IsSupersedes(after, r) && after[r].src == e.fact.id && after[r].dst == f
      ensures Overrules(before.facts[f], e)
    {
      assert IsAdded(before.rels, after, r);
    }
  }

  /** The last ingest of a history draws a supersession edge to a stored fact exactly when it prevails over it. */
  lemma LastEdgesFollowRules(g: Graph, init: seq<Ingest>, e: Ingest, f: Id)
    requires EmptyStart(g) && LegalHistory(g, init + [e]) && f in After(g, init).facts
    ensures HasEdge(After(g, init + [e]).rels, e.fact.id, f)
       <==> Disagrees(e, After(g, init).facts[f]) && Prevails(e, After(g, init).facts[f])
  {
    var rest, last, incoming := LastIngest(g, init + [e]);
    assert rest == init && last == e;
    IngestEdges(After(g, init), e);
    EdgesAreSound(g, init);
    NewEdgesOfStep(After(g, init), After(g, init + [e]).rels, init, e, f);
  }

  // ---------- the edges of one ingest ----------

  /** The edge that records what the new fact did to the old one, from when the new one is valid and was recorded. */
  predicate Records(rel: Rel, e: Ingest, f: Fact) {
    && rel.src == e.fact.id && rel.dst == f.id && rel.tenant == e.fact.tenant && rel.status == Current
    && rel.validFrom == e.fact.validFrom && rel.validTo == Absent
    && rel.recordedFrom == e.fact.recordedFrom && rel.recordedTo == Absent
    && (if Prevails(e, f) then rel.typ == FactSupersedesFact && rel.confidence == 0.9
        else rel.typ == FactContradictsFact && rel.confidence == 0.95)
  }

  predicate IsTouched(e: Ingest, f: Fact) {
    WordsOf(f.value) != WordsOf(e.fact.value) && (Prevails(e, f) || Clashes(e, f))
  }

  ghost predicate RecordsSome(rel: Rel, e: Ingest, priors: seq<Fact>) {
    exists k :: 0 <= k < |priors| && IsTouched(e, priors[k]) && Records(rel, e, priors[k])
  }

  ghost predicate IsRecorded(rels: seq<Rel>, e: Ingest, f: Fact) {
    exists i :: 0 <= i < |rels| && Records(rels[i], e, f)
  }

  /** The edges to be written are those of the facts touched so far. */
  ghost predicate PendingRecords(pending: seq<Rel>, e: Ingest, priors: seq<Fact>) {
    && (forall i :: 0 <= i < |pending| ==> RecordsSome(pending[i], e, priors))
    && (forall k :: 0 <= k < |priors| && IsTouched(e, priors[k]) ==> IsRecorded(pending, e, priors[k]))
  }

  lemma OneMoreWeighed(e: Ingest, before: Work, f: Fact)
    requires SameClaim(before.incoming, e.fact) && before.incoming.recordedFrom == e.fact.recordedFrom
    ensures var after := Weigh(before, f, e.authority, e.clock);
            if IsTouched(e, f)
            then |after.pending| == |before.pending| + 1 && after.pending[..|before.pending|] == before.pending
                 && Records(after.pending[|before.pending|], e, f)
            else after.pending == before.pending
  {
    assert Judge(f, before.incoming, e.authority, e.clock) == Judge(f, e.fact, e.authority, e.clock);
    if f.value.Rendered() != e.fact.value.Rendered() { JudgedByTheRules(e, f); }
  }

  lemma PendingGrows(e: Ingest, before: seq<Rel>, after: seq<Rel>, init: seq<Fact>, f: Fact)
    requires PendingRecords(before, e, init)
    requires if IsTouched(e, f)
             then |after| == |before| + 1 && after[..|before|] == before && Records(after[|before|], e, f)
             else after == before
    ensures PendingRecords(after, e, init + [f])
  {
    var priors := init + [f];
    forall i | 0 <= i < |after| ensures RecordsSome(after[i], e, priors) {
      if i < |before| {
        assert after[i] == before[i];
        var k :| 0 <= k < |init| && IsTouched(e, init[k]) && Records(before[i], e, init[k]);
        assert priors[k] == init[k];
      } else {
        assert priors[|init|] == f;
      }
    }
    forall k | 0 <= k < |priors| && IsTouched(e, priors[k]) ensures IsRecorded(after, e, priors[k]) {
      if k < |init| {
        var i :| 0 <= i < |before| && Records(before[i], e, init[k]);
        assert after[i] == before[i];
      }
    }
  }

  lemma {:induction false} WeighedRecords(g: Graph, e: Ingest, priors: seq<Fact>)
    ensures PendingRecords(WeighAll(g, e.fact, priors, e.authority, e.clock).pending, e, priors)
  {
    if priors != [] {
      var init, last := priors[..|priors| - 1], priors[|priors| - 1];
      var before := WeighAll(g, e.fact, init, e.authority, e.clock);
      WeighedRecords(g, e, init);
      WeighedClaim(g, e.fact, init, e.authority, e.clock);
      OneMoreWeighed(e, before, last);
      PendingGrows(e, before.pending, Weigh(before, last, e.authority, e.clock).pending, init, last);
      SplitLast(priors);
    }
  }

  ghost predicate TouchedBy(facts: map<Id, Fact>, e: Ingest, f: Id) {
    f in facts && Disagrees(e, facts[f]) && (Prevails(e, facts[f]) || Clashes(e, facts[f]))
  }

  lemma ListedTouched(facts: map<Id, Fact>, e: Ingest, k: nat)
    requires ListsRivals(e.priors, facts, e.fact) && k < |e.priors| && IsTouched(e, e.priors[k])
    ensures TouchedBy(facts, e, e.priors[k].id) && facts[e.priors[k].id] == e.priors[k]
  {}

  predicate IsNewPlain(before: map<RelId, Rel>, after: map<RelId, Rel>, r: RelId) {
    r.Plain? && r in after && r !in before
  }

  /** An ingest keeps every ordinary edge and adds one for each fact it prevails over or clashes with, from the new fact
      to it, and no other. */
  lemma EdgesOfIngest(g: Graph, e: Ingest)
    requires e.fact.id !in g.facts && ListsRivals(e.priors, g.facts, e.fact)
    requires forall f :: f in g.facts ==> g.facts[f].id == f
    ensures var after := Detected(g, e.fact, e.priors, e.authority, e.clock).rels;
            && (forall r: RelId :: r.Plain? && r in g.rels ==> r in after && after[r] == g.rels[r])
            && (forall r :: IsNewPlain(g.rels, after, r) ==>
                  TouchedBy(g.facts, e, after[r].dst) && Records(after[r], e, g.facts[after[r].dst]))
            && (forall f :: TouchedBy(g.facts, e, f) ==> HasNewRecord(g.rels, after, e, g.facts[f]))
            && (forall r, q :: IsNewPlain(g.rels, after, r) && IsNewPlain(g.rels, after, q) ==>
                  after[r].dst == after[q].dst ==> r == q)
  {
    var w := WeighAll(g, e.fact, e.priors, e.authority, e.clock);
    var stored := WithFact(w.g, w.incoming);
    var after := Detected(g, e.fact, e.priors, e.authority, e.clock).rels;
    WeighingKeepsEdges(g, e.fact, e.priors, e.authority, e.clock);
    assert SamePlain(g.rels, stored.rels);
    WeighedPending(g, e.fact, e.priors, e.authority, e.clock);
    WeighedRecords(g, e, e.priors);
    PendingWritten(stored, w.pending);
    forall r | IsNewPlain(g.rels, after, r)
      ensures TouchedBy(g.facts, e, after[r].dst) && Records(after[r], e, g.facts[after[r].dst])
    {
      NewEdgeRecords(g, e, stored.rels, after, w.pending, r);
    }
    forall f | TouchedBy(g.facts, e, f) ensures HasNewRecord(g.rels, after, e, g.facts[f]) {
      TouchedIsRecorded(g, e, stored.rels, after, w.pending, f);
    }
  }

  ghost predicate HasNewRecord(before: map<RelId, Rel>, after: map<RelId, Rel>, e: Ingest, f: Fact) {
    exists r :: r in after && r !in before && Records(after[r], e, f)
  }

  lemma NewEdgeRecords(g: Graph, e: Ingest, stored: map<RelId, Rel>, after: map<RelId, Rel>, pending: seq<Rel>,
                       r: RelId)
    requires ListsRivals(e.priors, g.facts, e.fact) && SamePlain(g.rels, stored) && WrittenBy(stored, after, pending)
    requires PendingRecords(pending, e, e.priors) && IsNewPlain(g.rels, after, r)
    ensures TouchedBy(g.facts, e, after[r].dst) && Records(after[r], e, g.facts[after[r].dst])
  {
    assert after[r] in pending;
    var i :| 0 <= i < |pending| && pending[i] == after[r];
    assert RecordsSome(pending[i], e, e.priors);
    var k :| 0 <= k < |e.priors| && IsTouched(e, e.priors[k]) && Records(after[r], e, e.priors[k]);
    ListedTouched(g.facts, e, k);
  }

  lemma TouchedIsRecorded(g: Graph, e: Ingest, stored: map<RelId, Rel>, after: map<RelId, Rel>, pending: seq<Rel>,
                          f: Id)
    requires ListsRivals(e.priors, g.facts, e.fact) && SamePlain(g.rels, stored) && WrittenBy(stored, after, pending)
    requires PendingRecords(pending, e, e.priors) && TouchedBy(g.facts, e, f) && e.fact.id !in g.facts
    requires g.facts[f].id == f
    ensures HasNewRecord(g.rels, after, e, g.facts[f])
  {
    assert f in Rivals(g.facts, e.fact);
    OpponentIsListed(g, e, f);
    var k :| 0 <= k < |e.priors| && e.priors[k] == g.facts[f];
    assert IsRecorded(pending, e, e.priors[k]);
    var i :| 0 <= i < |pending| && Records(pending[i], e, g.facts[f]);
    assert pending[i] in pending;
    var r :| r in after && r !in stored && after[r] == pending[i];
    assert r !in g.rels;
  }
}
