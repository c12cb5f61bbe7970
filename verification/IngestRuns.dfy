/** Whole sequences of ingested facts: agreement of current facts, survival of every key, and the supersession order. */
module IngestRuns {
  import opened Common
  import opened GraphModel
  import opened GraphStore
  import opened Supersession

  // ---------- one detection, fact by fact ----------

  function Outcome(prior: Fact, incoming: Fact, authority: Authority, clock: Time): Fact {
    match Judge(prior, incoming, authority, clock)
    case Agrees => prior
    case Supersedes => Overruled(prior, incoming)
    case Contradicts => prior.(status := Contradicted)
    case Yields => prior
  }

  /** Equal but for status and the two closing times. */
  ghost predicate SameClaim(a: Fact, b: Fact) {
    a == b.(status := a.status, validTo := a.validTo, recordedTo := a.recordedTo)
  }

  ghost predicate CopiesOf(priors: seq<Fact>, g: Graph, incoming: Fact) {
    && (forall k :: 0 <= k < |priors| ==>
        priors[k].id in g.facts && priors[k] == g.facts[priors[k].id] && priors[k].id != incoming.id)
    && (forall i, j :: 0 <= i < j < |priors| ==> priors[i].id != priors[j].id)
  }

  ghost predicate Listed(priors: seq<Fact>, f: Id) {
    exists k :: 0 <= k < |priors| && priors[k].id == f
  }

  lemma ListedSnoc(priors: seq<Fact>, f: Id)
    requires priors != []
    ensures Listed(priors, f) <==> Listed(priors[..|priors| - 1], f) || priors[|priors| - 1].id == f
  {
    var init := priors[..|priors| - 1];
    if Listed(init, f) {
      var k :| 0 <= k < |init| && init[k].id == f;
      assert priors[k].id == f;
    }
    if Listed(priors, f) {
      var k :| 0 <= k < |priors| && priors[k].id == f;
      assert k < |init| ==> init[k].id == f;
    }
  }

  lemma {:induction false} WeighedClaim(g: Graph, incoming: Fact, priors: seq<Fact>, authority: Authority, clock: Time)
    ensures SameClaim(WeighAll(g, incoming, priors, authority, clock).incoming, incoming)
    ensures WeighAll(g, incoming, priors, authority, clock).incoming.recordedFrom == incoming.recordedFrom
  {
    if priors != [] { WeighedClaim(g, incoming, priors[..|priors| - 1], authority, clock); }
  }

  /** Every listed rival gets its own outcome and nothing else in the fact table moves. */
  lemma {:induction false} WeighedFact(g: Graph, incoming: Fact, priors: seq<Fact>, authority: Authority, clock: Time,
                                       f: Id)
    requires CopiesOf(priors, g, incoming)
    ensures var after := WeighAll(g, incoming, priors, authority, clock).g.facts;
            && (f in after <==> f in g.facts)
            && (f in g.facts ==> after[f] == if Listed(priors, f) then Outcome(g.facts[f], incoming, authority, clock)
                else g.facts[f])
  {
    if priors != [] {
      var init, last := priors[..|priors| - 1], priors[|priors| - 1];
      WeighedFact(g, incoming, init, authority, clock, f);
      WeighedClaim(g, incoming, init, authority, clock);
      ListedSnoc(priors, f);
      var before := WeighAll(g, incoming, init, authority, clock);
      assert Judge(last, before.incoming, authority, clock) == Judge(last, incoming, authority, clock);
    }
  }

  predicate Loses(v: Verdict) {
    v == Contradicts || v == Yields
  }

  /** The new fact stays current exactly when no rival contradicts or outlives it. */
  lemma {:induction false} WeighedStatus(g: Graph, incoming: Fact, priors: seq<Fact>, authority: Authority, clock: Time)
    requires incoming.status == Current
    ensures var w := WeighAll(g, incoming, priors, authority, clock).incoming;
            && SameClaim(w, incoming)
            && (w.status == Current <==> forall k :: 0 <= k < |priors| ==>
                !Loses(Judge(priors[k], incoming, authority, clock)))
            && (w.status == Current ==> w == incoming)
            && w.status in {Current, Contradicted, Superseded}
            && (w.status == Superseded ==>
                exists k :: 0 <= k < |priors| && Judge(priors[k], incoming, authority, clock) == Yields)
  {
    if priors != [] {
      var n := |priors| - 1;
      WeighedStatus(g, incoming, priors[..n], authority, clock);
      var before := WeighAll(g, incoming, priors[..n], authority, clock).incoming;
      assert Judge(priors[n], before, authority, clock) == Judge(priors[n], incoming, authority, clock);
      assert forall k :: 0 <= k < n ==> priors[..n][k] == priors[k];
    }
  }

  lemma {:induction false} PendingKeepsFacts(g: Graph, pending: seq<Rel>)
    ensures WithPending(g, pending).facts == g.facts && WithPending(g, pending).nodes == g.nodes
  {
    if pending != [] { PendingKeepsFacts(g, pending[..|pending| - 1]); }
  }

  /** The fact table after one detection. */
  lemma DetectedFact(g: Graph, incoming: Fact, priors: seq<Fact>, authority: Authority, clock: Time, f: Id)
    requires CopiesOf(priors, g, incoming)
    ensures var after := Detected(g, incoming, priors, authority, clock).facts;
            && (f in after <==> f in g.facts || f == incoming.id)
            && incoming.id in after
            && after[incoming.id] == WeighAll(g, incoming, priors, authority, clock).incoming
            && (f in g.facts && f != incoming.id ==> after[f] == if Listed(priors, f)
                then Outcome(g.facts[f], incoming, authority, clock) else g.facts[f])
  {
    var w := WeighAll(g, incoming, priors, authority, clock);
    WeighedFact(g, incoming, priors, authority, clock, f);
    WeighedClaim(g, incoming, priors, authority, clock);
    PendingKeepsFacts(WithFact(w.g, w.incoming), w.pending);
  }

  // ---------- histories ----------

  datatype Ingest = Ingest(fact: Fact, authority: Authority, clock: Time, priors: seq<Fact>)

  /** The store after a sequence of ingests. */
  function After(g: Graph, history: seq<Ingest>): Graph {
    if history == [] then g
    else
      var n := |history| - 1;
      var e := history[n];
      Detected(After(g, history[..n]), e.fact, e.priors, e.authority, e.clock)
  }

  /** Current facts with fresh ids, each weighed against the rivals stored at that moment, in any order. */
  ghost predicate LegalHistory(g: Graph, history: seq<Ingest>) {
    history == [] ||
    var n := |history| - 1;
    var e := history[n];
    var before := After(g, history[..n]);
    && LegalHistory(g, history[..n])
    && e.fact.status == Current
    && e.fact.id !in before.facts
    && ListsRivals(e.priors, before.facts, e.fact)
  }

  ghost predicate EmptyStart(g: Graph) {
    && g.facts == map[]
    && forall r :: r in g.rels ==> g.rels[r].typ != FactSupersedesFact
  }

  /** Every ingested fact is in the store under its id, with its claim unchanged, and nothing else is. */
  ghost predicate Recorded(facts: map<Id, Fact>, history: seq<Ingest>) {
    && (forall i :: 0 <= i < |history| ==>
        history[i].fact.id in facts && SameClaim(facts[history[i].fact.id], history[i].fact))
    && (forall f :: f in facts ==> facts[f].id == f && Ingested(history, f))
    && (forall i, j :: 0 <= i < j < |history| ==> history[i].fact.id != history[j].fact.id)
  }

  ghost predicate Ingested(history: seq<Ingest>, f: Id) {
    exists i :: 0 <= i < |history| && history[i].fact.id == f
  }

  /** The fact a stored fact becomes when `e` is ingested. */
  function Next(f: Fact, e: Ingest): Fact {
    if IsRival(f, e.fact) then Outcome(f, e.fact, e.authority, e.clock) else f
  }

  predicate DefeatedBy(f: Fact, e: Ingest) {
    IsRival(f, e.fact) && Loses(Judge(f, e.fact, e.authority, e.clock))
  }

  predicate OutlivedBy(f: Fact, e: Ingest) {
    IsRival(f, e.fact) && Judge(f, e.fact, e.authority, e.clock) == Yields
  }

  /** What one more ingest does to the fact table; `incoming` is the new fact as it was finally stored. */
  ghost predicate Steps(before: map<Id, Fact>, after: map<Id, Fact>, e: Ingest, incoming: Fact) {
    && e.fact.status == Current && e.fact.id !in before
    && (forall f :: f in before ==> before[f].id == f)
    && after.Keys == before.Keys + {e.fact.id}
    && after[e.fact.id] == incoming
    && (forall f :: f in before ==> after[f] == Next(before[f], e))
    && SameClaim(incoming, e.fact)
    && incoming.status in {Current, Contradicted, Superseded}
    && (incoming.status == Current <==> forall f :: f in before ==> !DefeatedBy(before[f], e))
    && (incoming.status == Current ==> incoming == e.fact)
    && (incoming.status == Superseded ==> exists f :: f in before && OutlivedBy(before[f], e))
  }

  lemma IngestOne(before: Graph, e: Ingest) returns (incoming: Fact)
    requires e.fact.status == Current && e.fact.id !in before.facts && ListsRivals(e.priors, before.facts, e.fact)
    requires forall f :: f in before.facts ==> before.facts[f].id == f
    ensures Steps(before.facts, Detected(before, e.fact, e.priors, e.authority, e.clock).facts, e, incoming)
  {
    incoming := WeighAll(before, e.fact, e.priors, e.authority, e.clock).incoming;
    WeighedStatus(before, e.fact, e.priors, e.authority, e.clock);
    var after := Detected(before, e.fact, e.priors, e.authority, e.clock).facts;
    DetectedFact(before, e.fact, e.priors, e.authority, e.clock, e.fact.id);
    forall f: Id
      ensures f in after <==> f in before.facts || f == e.fact.id
      ensures f in before.facts ==> after[f] == Next(before.facts[f], e)
    {
      DetectedFact(before, e.fact, e.priors, e.authority, e.clock, f);
      if f in before.facts && IsRival(before.facts[f], e.fact) {
        assert f in Rivals(before.facts, e.fact);
      }
    }
    StatusByRivals(before.facts, e, incoming.status);
  }

  /** The visiting order of the rivals does not matter for who loses. */
  lemma StatusByRivals(before: map<Id, Fact>, e: Ingest, status: Status)
    requires ListsRivals(e.priors, before, e.fact)
    requires status == Current
             <==> forall k :: 0 <= k < |e.priors| ==> !Loses(Judge(e.priors[k], e.fact, e.authority, e.clock))
    requires status == Superseded ==>
             exists k :: 0 <= k < |e.priors| && Judge(e.priors[k], e.fact, e.authority, e.clock) == Yields
    ensures status == Current <==> forall f :: f in before ==> !DefeatedBy(before[f], e)
    ensures status == Superseded ==> exists f :: f in before && OutlivedBy(before[f], e)
  {
    forall f | f in before && DefeatedBy(before[f], e) ensures status != Current {
      assert f in Rivals(before, e.fact);
      var k :| 0 <= k < |e.priors| && e.priors[k].id == f;
    }
    forall k | 0 <= k < |e.priors| && Loses(Judge(e.priors[k], e.fact, e.authority, e.clock))
      ensures e.priors[k].id in before && DefeatedBy(before[e.priors[k].id], e)
    {}
    if status == Superseded {
      var k :| 0 <= k < |e.priors| && Judge(e.priors[k], e.fact, e.authority, e.clock) == Yields;
      assert OutlivedBy(before[e.priors[k].id], e);
    }
  }

  lemma NextKeepsClaim(f: Fact, e: Ingest)
    ensures SameClaim(Next(f, e), f) && Next(f, e).id == f.id
  {}

  lemma SameClaimIsTransitive(a: Fact, b: Fact, c: Fact)
    requires SameClaim(a, b) && SameClaim(b, c)
    ensures SameClaim(a, c)
  {}

  lemma RecordedSnoc(before: map<Id, Fact>, after: map<Id, Fact>, init: seq<Ingest>, e: Ingest, incoming: Fact)
    requires Recorded(before, init) && e.fact.id !in before
    requires after.Keys == before.Keys + {e.fact.id} && after[e.fact.id] == incoming && SameClaim(incoming, e.fact)
    requires forall f :: f in before ==> after[f] == Next(before[f], e)
    ensures Recorded(after, init + [e])
  {
    var history := init + [e];
    forall f | f in after ensures after[f].id == f && Ingested(history, f) {
      if f == e.fact.id {
        assert history[|init|].fact.id == f;
      } else {
        NextKeepsClaim(before[f], e);
        var i :| 0 <= i < |init| && init[i].fact.id == f;
        assert history[i].fact.id == f;
      }
    }
    forall i | 0 <= i < |history|
      ensures history[i].fact.id in after && SameClaim(after[history[i].fact.id], history[i].fact)
    {
      if i < |init| {
        var f := init[i].fact.id;
        NextKeepsClaim(before[f], e);
        SameClaimIsTransitive(after[f], before[f], init[i].fact);
      }
    }
  }

  lemma {:induction false} HistoryIsRecorded(g: Graph, history: seq<Ingest>)
    requires EmptyStart(g) && LegalHistory(g, history)
    ensures Recorded(After(g, history).facts, history)
  {
    if history != [] {
      var init, e := history[..|history| - 1], history[|history| - 1];
      HistoryIsRecorded(g, init);
      var incoming := IngestOne(After(g, init), e);
      RecordedSnoc(After(g, init).facts, After(g, history).facts, init, e, incoming);
      SplitLast(history);
    }
  }

  // ---------- current facts agree; no key dies ----------

  /** Two current facts of one key carry the same value. */
  ghost predicate Agreement(facts: map<Id, Fact>) {
    forall a, b :: AgreeOn(facts, a, b)
  }

  predicate Alive(f: Fact) {
    f.status == Current || f.status == Contradicted
  }

  ghost predicate KeyLives(facts: map<Id, Fact>, like: Fact) {
    exists f :: f in facts && SameKey(facts[f], like) && Alive(facts[f])
  }

  ghost predicate AgreeOn(facts: map<Id, Fact>, a: Id, b: Id) {
    a in facts && b in facts && SameKey(facts[a], facts[b]) && facts[a].status == Current
        && facts[b].status == Current ==>
      facts[a].value.Rendered() == facts[b].value.Rendered()
  }

  lemma RivalAgrees(before: map<Id, Fact>, after: map<Id, Fact>, e: Ingest, incoming: Fact, a: Id)
    requires Steps(before, after, e, incoming) && a in before && incoming.status == Current
    requires after[a].status == Current && SameKey(before[a], e.fact)
    ensures before[a].value.Rendered() == e.fact.value.Rendered()
  {
    assert !DefeatedBy(before[a], e);
  }

  lemma AgreementStep(before: map<Id, Fact>, after: map<Id, Fact>, e: Ingest, incoming: Fact)
    requires Steps(before, after, e, incoming)
    requires Agreement(before)
    ensures Agreement(after)
  {
    forall a, b | a in after && b in after && SameKey(after[a], after[b]) && after[a].status == Current
        && after[b].status == Current
      ensures after[a].value.Rendered() == after[b].value.Rendered()
    {
      var n := e.fact.id;
      if a != n { NextKeepsClaim(before[a], e); }
      if b != n { NextKeepsClaim(before[b], e); }
      if a != n && b != n {
        assert AgreeOn(before, a, b);
      } else if a != n {
        RivalAgrees(before, after, e, incoming, a);
      } else if b != n {
        RivalAgrees(before, after, e, incoming, b);
      }
    }
  }

  lemma KeyLivesStep(before: map<Id, Fact>, after: map<Id, Fact>, e: Ingest, incoming: Fact, like: Fact)
    requires Steps(before, after, e, incoming)
    requires KeyLives(before, like) || SameKey(e.fact, like)
    ensures KeyLives(after, like)
  {
    if SameKey(e.fact, like) {
      if Alive(incoming) {
        assert SameKey(after[e.fact.id], like);
      } else {
        var f :| f in before && OutlivedBy(before[f], e);
        assert after[f] == before[f];
      }
    } else {
      var f :| f in before && SameKey(before[f], like) && Alive(before[f]);
      assert after[f] == before[f];
    }
  }

  /** The last ingest of a history as a step on the fact table. */
  lemma LastIngest(g: Graph, history: seq<Ingest>) returns (init: seq<Ingest>, e: Ingest, incoming: Fact)
    requires EmptyStart(g) && LegalHistory(g, history) && history != []
    ensures |init| == |history| - 1 && history == init + [e] && LegalHistory(g, init)
    ensures Recorded(After(g, init).facts, init)
    ensures Steps(After(g, init).facts, After(g, history).facts, e, incoming)
  {
    init, e := history[..|history| - 1], history[|history| - 1];
    SplitLast(history);
    HistoryIsRecorded(g, init);
    incoming := IngestOne(After(g, init), e);
  }

  /** Two current facts of one key carry the same value, whatever was ingested in whatever order. */
  lemma {:induction false} CurrentFactsAgree(g: Graph, history: seq<Ingest>)
    requires EmptyStart(g) && LegalHistory(g, history)
    ensures Agreement(After(g, history).facts)
  {
    if history != [] {
      var init, e, incoming := LastIngest(g, history);
      CurrentFactsAgree(g, init);
      AgreementStep(After(g, init).facts, After(g, history).facts, e, incoming);
    }
  }

  /** A key that ever received a fact always keeps one that is current or contradicted. */
  lemma {:induction false} NoKeyDies(g: Graph, history: seq<Ingest>, i: nat)
    requires EmptyStart(g) && LegalHistory(g, history) && i < |history|
    ensures KeyLives(After(g, history).facts, history[i].fact)
  {
    var init, e, incoming := LastIngest(g, history);
    if i < |init| {
      NoKeyDies(g, init, i);
      assert init[i] == history[i];
    }
    KeyLivesStep(After(g, init).facts, After(g, history).facts, e, incoming, history[i].fact);
  }
}
