/** How an ingested fact is weighed against the current facts of its key, and what that does to the store. */
module Supersession {
  import opened Common
  import opened GraphModel
  import opened GraphStore

  type Authority = map<Id, real>

  function Weight(authority: Authority, source: Id): real {
    if source in authority then authority[source] else 0.5
  }

  datatype Verdict = Agrees | Supersedes | Contradicts | Yields

  /** What the new fact does to one current fact of its key. */
  function Judge(prior: Fact, incoming: Fact, authority: Authority, clock: Time): Verdict {
    var newFrom, oldFrom := MomentOf(incoming.validFrom, clock), MomentOf(prior.validFrom, 0);
    var newWeight, oldWeight := Weight(authority, incoming.source), Weight(authority, prior.source);
    var difference := newWeight - oldWeight;
    if prior.value.Rendered() == incoming.value.Rendered() then Agrees
    else if IsAfter(newFrom, oldFrom)
        || (newWeight > oldWeight && !IsAfter(newFrom, oldFrom) && !IsSame(newFrom, oldFrom)) then Supersedes
    else if IsSame(newFrom, oldFrom) && -0.05 < difference < 0.05 then Contradicts
    else Yields
  }

  predicate SameKey(a: Fact, b: Fact) {
    a.tenant == b.tenant && a.entity == b.entity && a.attribute == b.attribute
  }

  predicate IsRival(f: Fact, incoming: Fact) {
    SameKey(f, incoming) && f.id != incoming.id && f.status == Current
  }

  function Rivals(facts: map<Id, Fact>, incoming: Fact): set<Id> {
    set f | f in facts && IsRival(facts[f], incoming)
  }

  function Overruled(prior: Fact, incoming: Fact): Fact {
    prior.(status := Superseded, validTo := incoming.validFrom, recordedTo := incoming.recordedFrom)
  }

  function FactToFact(typ: RelType, confidence: real, incoming: Fact, prior: Fact): Rel {
    Rel(incoming.tenant, typ, incoming.id, prior.id, confidence, Current,
        incoming.validFrom, Absent, incoming.recordedFrom, Absent, "supersession_detection_job")
  }

  /** The store, the new fact and the edges still to be written, part-way through the comparison. */
  datatype Work = Work(g: Graph, incoming: Fact, pending: seq<Rel>)

  function Weigh(w: Work, prior: Fact, authority: Authority, clock: Time): Work {
    match Judge(prior, w.incoming, authority, clock)
    case Agrees => w
    case Supersedes =>
      w.(g := WithFact(w.g, Overruled(prior, w.incoming)),
         pending := w.pending + [FactToFact(FactSupersedesFact, 0.9, w.incoming, prior)])
    case Contradicts =>
      w.(g := WithFact(w.g, prior.(status := Contradicted)),
         incoming := w.incoming.(status := Contradicted),
         pending := w.pending + [FactToFact(FactContradictsFact, 0.95, w.incoming, prior)])
    case Yields =>
      w.(incoming := w.incoming.(status := Superseded, validTo := prior.validFrom, recordedTo := prior.recordedFrom))
  }

  function WeighAll(g: Graph, incoming: Fact, priors: seq<Fact>, authority: Authority, clock: Time): Work {
    if priors == [] then Work(g, incoming, [])
    else Weigh(WeighAll(g, incoming, priors[..|priors| - 1], authority, clock), priors[|priors| - 1], authority, clock)
  }

  lemma WeighOneMore(g: Graph, incoming: Fact, priors: seq<Fact>, i: nat, authority: Authority, clock: Time)
    requires i < |priors|
    ensures WeighAll(g, incoming, priors[..i + 1], authority, clock)
         == Weigh(WeighAll(g, incoming, priors[..i], authority, clock), priors[i], authority, clock)
  {
    assert priors[..i + 1][..i] == priors[..i];
  }

  function WithPending(g: Graph, pending: seq<Rel>): Graph {
    if pending == [] then g
    else
      var before := WithPending(g, pending[..|pending| - 1]);
      WithRel(before, FreshId(PlainIds(before.rels)), pending[|pending| - 1])
  }

  /** The store after one detection, given the rivals in the order they were visited. */
  function Detected(g: Graph, incoming: Fact, priors: seq<Fact>, authority: Authority, clock: Time): Graph {
    var w := WeighAll(g, incoming, priors, authority, clock);
    WithPending(WithFact(w.g, w.incoming), w.pending)
  }

  /** The copies of the rivals, each once, as the store hands them out. */
  ghost predicate ListsRivals(priors: seq<Fact>, facts: map<Id, Fact>, incoming: Fact) {
    ListsAmong(priors, facts, incoming, facts.Keys)
  }

  ghost predicate ListsAmong(priors: seq<Fact>, facts: map<Id, Fact>, incoming: Fact, some: set<Id>) {
    && (forall k :: 0 <= k < |priors| ==>
          priors[k].id in Rivals(facts, incoming) && priors[k].id in some && priors[k] == facts[priors[k].id])
    && (forall f :: f in Rivals(facts, incoming) && f in some ==> exists k :: 0 <= k < |priors| && priors[k].id == f)
    && (forall i, j :: 0 <= i < j < |priors| ==> priors[i].id != priors[j].id)
  }

  lemma ListsOneMore(priors: seq<Fact>, facts: map<Id, Fact>, incoming: Fact, some: set<Id>, f: Id)
    requires ListsAmong(priors, facts, incoming, some) && f in facts && facts[f].id == f && f !in some
    ensures ListsAmong(if IsRival(facts[f], incoming) then priors + [facts[f]] else priors, facts, incoming, some + {f})
  {
    var longer := priors + [facts[f]];
    assert longer[|priors|].id == f;
    forall g | g in Rivals(facts, incoming) && g in some ensures exists k :: 0 <= k < |priors| && longer[k].id == g {
      var k :| 0 <= k < |priors| && priors[k].id == g;
      assert longer[k].id == g;
    }
  }

  class SupersessionDetectionJob {
    const store: Neo4jClient

    constructor (store: Neo4jClient)
      ensures this.store == store
    {
      this.store := store;
    }

    method ListRivals(incoming: Fact) returns (priors: seq<Fact>)
      requires store.State().Keyed()
      ensures ListsRivals(priors, store.facts, incoming)
    {
      var ids := Enumerate(store.facts.Keys);
      EnumeratesAll(ids, store.facts.Keys);
      NoElements(ids);
      priors := [];
      var i := 0;
      while i < |ids|
        invariant 0 <= i <= |ids|
        invariant ListsAmong(priors, store.facts, incoming, Elements(ids[..i]))
      {
        ElementsOneMore(ids, i);
        var f := store.facts[ids[i]];
        ListsOneMore(priors, store.facts, incoming, Elements(ids[..i]), ids[i]);
        if IsRival(f, incoming) {
          priors := priors + [f];
        }
        i := i + 1;
      }
    }

    method WritePending(pending: seq<Rel>)
      modifies store
      ensures store.State() == WithPending(old(store.State()), pending)
    {
      var i := 0;
      while i < |pending|
        invariant 0 <= i <= |pending|
        invariant store.State() == WithPending(old(store.State()), pending[..i])
      {
        assert pending[..i + 1][..i] == pending[..i];
        store.UpsertRelationship(FreshId(PlainIds(store.rels)), pending[i]);
        i := i + 1;
      }
      assert pending[..i] == pending;
    }

    /** Weighs the new fact against one rival, updating the rival in the store. */
    method WeighOne(incoming: Fact, prior: Fact, newFrom: Moment, pending: seq<Rel>, authority: Authority, clock: Time)
        returns (incoming': Fact, pending': seq<Rel>)
      requires newFrom == MomentOf(incoming.validFrom, clock)
      modifies store
      ensures Work(store.State(), incoming', pending')
           == Weigh(Work(old(store.State()), incoming, pending), prior, authority, clock)
      ensures incoming'.validFrom == incoming.validFrom
    {
      incoming', pending' := incoming, pending;
      var oldFrom := MomentOf(prior.validFrom, 0);
      if prior.value.Rendered() == incoming.value.Rendered() {
        return;
      }
      var oldWeight, newWeight := Weight(authority, prior.source), Weight(authority, incoming.source);
      var isNewer := IsAfter(newFrom, oldFrom);
      var isOverlapping := IsSame(newFrom, oldFrom);
      if isNewer || (newWeight > oldWeight && !isNewer && !isOverlapping) {
        store.UpsertFact(prior.(status := Superseded, validTo := incoming.validFrom,
                                recordedTo := incoming.recordedFrom));
        pending' := pending + [FactToFact(FactSupersedesFact, 0.9, incoming, prior)];
      } else if isOverlapping && -0.05 < newWeight - oldWeight < 0.05 {
        store.UpsertFact(prior.(status := Contradicted));
        pending' := pending + [FactToFact(FactContradictsFact, 0.95, incoming, prior)];
        incoming' := incoming.(status := Contradicted);
      } else {
        incoming' := incoming.(status := Superseded, validTo := prior.validFrom, recordedTo := prior.recordedFrom);
      }
    }

    /** Settles the new fact against its rivals, stores it, and only then writes the fact-to-fact edges. */
    method DetectSupersession(newFact: Fact, authority: Authority, clock: Time) returns (ghost priors: seq<Fact>)
      requires store.State().Keyed()
      modifies store
      ensures ListsRivals(priors, old(store.facts), newFact)
      ensures store.State() == Detected(old(store.State()), newFact, priors, authority, clock)
    {
      ghost var g0 := store.State();
      var existing := ListRivals(newFact);
      priors := existing;
      var incoming := newFact;
      var pending: seq<Rel> := [];
      var newFrom := MomentOf(newFact.validFrom, clock);
      var i := 0;
      while i < |existing|
        invariant 0 <= i <= |existing|
        invariant Work(store.State(), incoming, pending) == WeighAll(g0, newFact, existing[..i], authority, clock)
        invariant incoming.validFrom == newFact.validFrom
      {
        WeighOneMore(g0, newFact, existing, i, authority, clock);
        incoming, pending := WeighOne(incoming, existing[i], newFrom, pending, authority, clock);
        i := i + 1;
      }
      TakeAll(existing);
      store.UpsertFact(incoming);
      WritePending(pending);
    }
  }
}
