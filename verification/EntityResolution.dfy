/** The resolution job: walks the pairs of current nodes, merges sure duplicates and links likely ones for review. */
module EntityResolution {
  import opened Common
  import opened GraphModel
  import opened GraphStore
  import opened ResolutionRuns
  import opened ResolutionTheorems

  const AUTO_MERGE_THRESHOLD := 0.95

  datatype MatchType = ExactName | AliasOverlap | TokenOverlap

  datatype Match = Match(confidence: real, matchType: MatchType)

  /** How alike two nodes are; any function, since only its answers matter here. */
  type Scorer = (Node, Node) -> Option<Match>

  datatype ResolutionPair = ResolutionPair(nodeA: Id, nodeB: Id, confidence: real, matchType: MatchType)

  datatype Report = Report(resolvedCount: nat, autoMergedCount: nat, pendingReviewCount: nat,
                           pairs: seq<ResolutionPair>)

  // ---------- the side index follows the edges ----------

  /** Redirecting an edge moves its key the way the key surgery does. */
  lemma KeyOfRedirected(src: Id, dst: Id, c: Id, d: Id)
    requires c != d
    ensures var q := LinkedPairKey(src, dst);
            && (Mentions(q, d) <==> src == d || dst == d)
            && (Mentions(q, d) ==> (OtherEnd(q, d) in {c, d} <==> Redirect(src, d, c) == Redirect(dst, d, c)))
            && (Mentions(q, d) && OtherEnd(q, d) !in {c, d} ==>
                  LinkedPairKey(Redirect(src, d, c), Redirect(dst, d, c)) == LinkedPairKey(c, OtherEnd(q, d)))
  {}

  ghost predicate LinkWithKey(rels: map<RelId, Rel>, tenant: Tenant, r: RelId, p: Pair) {
    r in rels && IsLink(r, rels[r], tenant) && p == LinkedPairKey(rels[r].src, rels[r].dst)
  }

  lemma PairHasLink(g: Graph, tenant: Tenant, p: Pair) returns (r: RelId)
    requires p in LinkPairs(g, tenant)
    ensures LinkWithKey(g.rels, tenant, r, p)
  {
    r :| r in g.rels && IsLink(r, g.rels[r], tenant) && p == LinkedPairKey(g.rels[r].src, g.rels[r].dst);
  }

  lemma LinkHasPair(g: Graph, tenant: Tenant, r: RelId, p: Pair)
    requires LinkWithKey(g.rels, tenant, r, p)
    ensures p in LinkPairs(g, tenant)
  {}

  lemma LinkAfterMerge(g: Graph, tenant: Tenant, s: Step, now: Time, r: RelId)
    requires g.Keyed() && Plain(s.rel) !in g.rels
    requires s.Merge? && s.canonical in g.nodes && s.duplicate in g.nodes && s.canonical != s.duplicate
    requires g.nodes[s.canonical].tenant == tenant
    ensures var after := ApplyStep(g, tenant, s, now).rels;
            && LinkWithKey(after, tenant, Plain(s.rel), LinkedPairKey(s.canonical, s.duplicate))
            && (r != Plain(s.rel) ==>
                  ((r in after && IsLink(r, after[r], tenant)) <==>
                   (r in g.rels && IsLink(r, g.rels[r], tenant)
                    && !Collapses(r, g.rels[r], tenant, s.duplicate, s.canonical))))
            && (r != Plain(s.rel) && r in after && IsLink(r, after[r], tenant) ==>
                  after[r] == RedirectedRel(r, g.rels[r], tenant, s.duplicate, s.canonical))
  {}

  /** After a merge, key surgery plus the merged pair itself gives the pairs linked in the new store. */
  lemma LinkPairsAfterMerge(g: Graph, tenant: Tenant, s: Step, now: Time)
    requires g.Keyed() && Plain(s.rel) !in g.rels
    requires s.Merge? && s.canonical in g.nodes && s.duplicate in g.nodes && s.canonical != s.duplicate
    requires g.nodes[s.canonical].tenant == tenant
    ensures LinkPairs(ApplyStep(g, tenant, s, now), tenant)
         == RewiredPairs(LinkPairs(g, tenant), s.canonical, s.duplicate) + {LinkedPairKey(s.canonical, s.duplicate)}
  {
    var c, d := s.canonical, s.duplicate;
    var after := ApplyStep(g, tenant, s, now);
    forall p ensures p in LinkPairs(after, tenant)
        <==> p in RewiredPairs(LinkPairs(g, tenant), c, d) + {LinkedPairKey(c, d)} {
      LinkAfterMerge(g, tenant, s, now, Plain(s.rel));
      LinkHasPair(after, tenant, Plain(s.rel), LinkedPairKey(c, d));
      if p in LinkPairs(after, tenant) {
        var r := PairHasLink(after, tenant, p);
        LinkAfterMerge(g, tenant, s, now, r);
        if r != Plain(s.rel) {
          KeyOfRedirected(g.rels[r].src, g.rels[r].dst, c, d);
          LinkHasPair(g, tenant, r, LinkedPairKey(g.rels[r].src, g.rels[r].dst));
        }
      }
      if p in RewiredPairs(LinkPairs(g, tenant), c, d) {
        var q :| q in LinkPairs(g, tenant)
              && if Mentions(q, d) then OtherEnd(q, d) !in {c, d} && p == LinkedPairKey(c, OtherEnd(q, d)) else p == q;
        var r := PairHasLink(g, tenant, q);
        LinkAfterMerge(g, tenant, s, now, r);
        KeyOfRedirected(g.rels[r].src, g.rels[r].dst, c, d);
        LinkHasPair(after, tenant, r, p);
      }
    }
  }

  lemma LinkPairsAfterReview(g: Graph, tenant: Tenant, s: Step, now: Time)
    requires s.Review? && Plain(s.rel) !in g.rels
    ensures LinkPairs(ApplyStep(g, tenant, s, now), tenant) == LinkPairs(g, tenant) + {LinkedPairKey(s.first, s.second)}
  {
    var after := ApplyStep(g, tenant, s, now);
    LinkHasPair(after, tenant, Plain(s.rel), LinkedPairKey(s.first, s.second));
    forall p ensures p in LinkPairs(after, tenant) <==> p in LinkPairs(g, tenant) + {LinkedPairKey(s.first, s.second)} {
      if p in LinkPairs(after, tenant) {
        var r := PairHasLink(after, tenant, p);
        if r != Plain(s.rel) { LinkHasPair(g, tenant, r, p); }
      }
      if p in LinkPairs(g, tenant) {
        var r := PairHasLink(g, tenant, p);
        LinkHasPair(after, tenant, r, p);
      }
    }
  }

  // ---------- what the pass decided, and why ----------

  predicate MatchesAt(g: Graph, tenant: Tenant, score: Scorer, a: Id, b: Id) {
    && a in g.nodes && b in g.nodes
    && g.nodes[a].typ == g.nodes[b].typ
    && score(g.nodes[a], g.nodes[b]).Some?
    && LinkedPairKey(a, b) !in LinkPairs(g, tenant)
  }

  /** A step is taken on a matching, not yet linked pair in listing order, and merges exactly from the threshold on. */
  ghost predicate StepJustified(g: Graph, tenant: Tenant, score: Scorer, s: Step, pair: ResolutionPair) {
    && MatchesAt(g, tenant, score, pair.nodeA, pair.nodeB)
    && score(g.nodes[pair.nodeA], g.nodes[pair.nodeB]) == Some(Match(pair.confidence, pair.matchType))
    && s.confidence == pair.confidence
    && (s.Merge? <==> pair.confidence >= AUTO_MERGE_THRESHOLD)
    && (s.Merge? ==> (s.canonical, s.duplicate) == (CanonicalFirst(g.nodes[pair.nodeA], g.nodes[pair.nodeB]).0.id,
                                                    CanonicalFirst(g.nodes[pair.nodeA], g.nodes[pair.nodeB]).1.id))
    && (s.Review? ==> (s.first, s.second) == (pair.nodeA, pair.nodeB))
  }

  ghost predicate Justified(g0: Graph, tenant: Tenant, score: Scorer, steps: seq<Step>, pairs: seq<ResolutionPair>,
                            now: Time) {
    && |pairs| == |steps|
    && forall k :: 0 <= k < |steps| ==>
         StepJustified(Run(g0, tenant, steps[..k], now), tenant, score, steps[k], pairs[k])
  }

  /** At some moment of the pass the two nodes, in this order, gave no reason to act. */
  ghost predicate Settled(g0: Graph, tenant: Tenant, score: Scorer, steps: seq<Step>, now: Time, a: Id, b: Id) {
    exists k :: 0 <= k <= |steps| && !MatchesAt(Run(g0, tenant, steps[..k], now), tenant, score, a, b)
  }

  function CountMerges(steps: seq<Step>): nat {
    if steps == [] then 0
    else CountMerges(steps[..|steps| - 1]) + (if steps[|steps| - 1].Merge? then 1 else 0)
  }

  ghost predicate ReportFits(report: Report, steps: seq<Step>) {
    && report.resolvedCount == |steps| == |report.pairs|
    && report.autoMergedCount == CountMerges(steps)
    && report.pendingReviewCount == |steps| - CountMerges(steps)
  }

  predicate IsCandidate(n: Node, tenant: Tenant) {
    n.tenant == tenant && n.status == Current && n.typ != FactNode && n.typ != SourceNode
  }

  function Candidates(g: Graph, tenant: Tenant): set<Id> {
    set n | n in g.nodes && IsCandidate(g.nodes[n], tenant)
  }

  // ---------- who takes part, with types, tenants and statuses written out ----------

  /** Two different current nodes of the tenant, of one type that is neither that of facts nor that of sources. */
  predicate AreComparable(g: Graph, tenant: Tenant, a: Id, b: Id) {
    && a in g.nodes && b in g.nodes && a != b
    && g.nodes[a].tenant == tenant && g.nodes[b].tenant == tenant
    && g.nodes[a].status == Current && g.nodes[b].status == Current
    && g.nodes[a].typ == g.nodes[b].typ && g.nodes[a].typ != FactNode && g.nodes[a].typ != SourceNode
  }

  /** An alias or merge edge of the tenant joins the two nodes, either way round. */
  ghost predicate AreJoined(g: Graph, tenant: Tenant, a: Id, b: Id) {
    exists r :: r in g.rels && r.Plain? && JoinsThem(g.rels[r], tenant, a, b)
  }

  predicate JoinsThem(rel: Rel, tenant: Tenant, a: Id, b: Id) {
    && rel.tenant == tenant && (rel.typ == EntityAliasOf || rel.typ == EntityMergedInto)
    && ((rel.src == a && rel.dst == b) || (rel.src == b && rel.dst == a))
  }

  lemma JoinedIsLinked(g: Graph, tenant: Tenant, a: Id, b: Id)
    ensures LinkedPairKey(a, b) in LinkPairs(g, tenant) <==> AreJoined(g, tenant, a, b)
  {
    if LinkedPairKey(a, b) in LinkPairs(g, tenant) {
      var r := PairHasLink(g, tenant, LinkedPairKey(a, b));
      assert JoinsThem(g.rels[r], tenant, a, b);
    }
    if AreJoined(g, tenant, a, b) {
      var r :| r in g.rels && r.Plain? && JoinsThem(g.rels[r], tenant, a, b);
      LinkHasPair(g, tenant, r, LinkedPairKey(a, b));
    }
  }

  /** The step acts on the pair of the report: comparable from the start, not joined by then, scored by the scorer, and
      merged exactly from a confidence of 0.95 on. */
  ghost predicate ActsOnPair(g0: Graph, before: Graph, tenant: Tenant, score: Scorer, s: Step, pair: ResolutionPair) {
    && AreComparable(g0, tenant, pair.nodeA, pair.nodeB) && !AreJoined(before, tenant, pair.nodeA, pair.nodeB)
    && pair.nodeA in before.nodes && pair.nodeB in before.nodes
    && score(before.nodes[pair.nodeA], before.nodes[pair.nodeB]) == Some(Match(pair.confidence, pair.matchType))
    && (if pair.confidence >= 0.95
        then s.Merge? && {s.canonical, s.duplicate} == {pair.nodeA, pair.nodeB}
        else s.Review? && s.first == pair.nodeA && s.second == pair.nodeB)
  }

  lemma {:induction false} LegalAt(g: Graph, tenant: Tenant, live: set<Id>, steps: seq<Step>, now: Time, k: nat)
    requires LegalRun(g, tenant, live, steps, now) && k < |steps|
    ensures LegalRun(g, tenant, live, steps[..k], now)
    ensures LegalStep(Run(g, tenant, steps[..k], now), Live(live, steps[..k]), steps[k], UsedIds(g, steps[..k]))
  {
    var init, s, before := RunSplits(g, tenant, live, steps, now);
    if k < |init| {
      LegalAt(g, tenant, live, init, now, k);
      assert init[..k] == steps[..k] && init[k] == steps[k];
    } else {
      assert init == steps[..k] && s == steps[k];
    }
  }

  lemma StepActsOnPair(g0: Graph, before: Graph, tenant: Tenant, score: Scorer, init: seq<Step>, s: Step,
                       pair: ResolutionPair, used: set<Id>)
    requires NodesKept(g0, before, Candidates(g0, tenant), init) && before.Keyed()
    requires LegalStep(before, Live(Candidates(g0, tenant), init), s, used)
    requires StepJustified(before, tenant, score, s, pair)
    ensures ActsOnPair(g0, before, tenant, score, s, pair)
  {
    JoinedIsLinked(before, tenant, pair.nodeA, pair.nodeB);
    assert SameIdentity(before.nodes[pair.nodeA], g0.nodes[pair.nodeA]);
    assert SameIdentity(before.nodes[pair.nodeB], g0.nodes[pair.nodeB]);
  }

  /** What a pass does, it does to comparable pairs only. */
  ghost predicate ActsOnPairs(g0: Graph, tenant: Tenant, score: Scorer, steps: seq<Step>, pairs: seq<ResolutionPair>,
                              now: Time) {
    && |pairs| == |steps|
    && forall k :: 0 <= k < |steps| ==>
         ActsOnPair(g0, Run(g0, tenant, steps[..k], now), tenant, score, steps[k], pairs[k])
  }

  lemma PassActsOnPairs(g0: Graph, tenant: Tenant, score: Scorer, steps: seq<Step>, pairs: seq<ResolutionPair>,
                        now: Time)
    requires g0.Keyed() && LegalRun(g0, tenant, Candidates(g0, tenant), steps, now)
    requires Justified(g0, tenant, score, steps, pairs, now)
    ensures ActsOnPairs(g0, tenant, score, steps, pairs, now)
  {
    var live := Candidates(g0, tenant);
    forall k | 0 <= k < |steps|
      ensures ActsOnPair(g0, Run(g0, tenant, steps[..k], now), tenant, score, steps[k], pairs[k])
    {
      LegalAt(g0, tenant, live, steps, now, k);
      NodesAfterRun(g0, tenant, live, steps[..k], now);
      KeysAfterRun(g0, tenant, live, steps[..k], now);
      assert StepJustified(Run(g0, tenant, steps[..k], now), tenant, score, steps[k], pairs[k]);
      StepActsOnPair(g0, Run(g0, tenant, steps[..k], now), tenant, score, steps[..k], steps[k], pairs[k],
                     UsedIds(g0, steps[..k]));
    }
  }

  /** The node was merged into another one by one of the steps. */
  ghost predicate IsMergedAway(steps: seq<Step>, x: Id) {
    exists k :: 0 <= k < |steps| && steps[k].Merge? && steps[k].duplicate == x
  }

  /** At some moment the scorer saw no match of the two, or an alias or merge edge joined them. */
  ghost predicate GaveNoReason(g0: Graph, tenant: Tenant, score: Scorer, steps: seq<Step>, now: Time, a: Id, b: Id) {
    exists k :: 0 <= k <= |steps| && IsNoReason(Run(g0, tenant, steps[..k], now), tenant, score, a, b)
  }

  ghost predicate IsNoReason(g: Graph, tenant: Tenant, score: Scorer, a: Id, b: Id) {
    a in g.nodes && b in g.nodes && (score(g.nodes[a], g.nodes[b]).None? || AreJoined(g, tenant, a, b))
  }

  /** Every comparable pair lost a node to a merge, or gave no reason to act when it was looked at. */
  ghost predicate ComparesAll(g0: Graph, tenant: Tenant, score: Scorer, steps: seq<Step>, now: Time) {
    forall a, b :: AreComparable(g0, tenant, a, b) ==>
      || IsMergedAway(steps, a) || IsMergedAway(steps, b)
      || GaveNoReason(g0, tenant, score, steps, now, a, b) || GaveNoReason(g0, tenant, score, steps, now, b, a)
  }

  lemma NotLiveIsMerged(live: set<Id>, steps: seq<Step>, x: Id)
    requires x in live && x !in Live(live, steps)
    ensures IsMergedAway(steps, x)
  {
    var s :| s in steps && s.Merge? && s.duplicate == x;
    var k :| 0 <= k < |steps| && steps[k] == s;
  }

  lemma SettledGaveNoReason(g0: Graph, tenant: Tenant, score: Scorer, steps: seq<Step>, now: Time, a: Id, b: Id)
    requires g0.Keyed() && LegalRun(g0, tenant, Candidates(g0, tenant), steps, now)
    requires AreComparable(g0, tenant, a, b) && Settled(g0, tenant, score, steps, now, a, b)
    ensures GaveNoReason(g0, tenant, score, steps, now, a, b)
  {
    var live := Candidates(g0, tenant);
    var k :| 0 <= k <= |steps| && !MatchesAt(Run(g0, tenant, steps[..k], now), tenant, score, a, b);
    var g := Run(g0, tenant, steps[..k], now);
    if k < |steps| { LegalAt(g0, tenant, live, steps, now, k); } else { TakeAll(steps); }
    NodesAfterRun(g0, tenant, live, steps[..k], now);
    assert SameIdentity(g.nodes[a], g0.nodes[a]) && SameIdentity(g.nodes[b], g0.nodes[b]);
    JoinedIsLinked(g, tenant, a, b);
    assert IsNoReason(g, tenant, score, a, b);
  }

  lemma PassComparesAll(g0: Graph, tenant: Tenant, score: Scorer, steps: seq<Step>, now: Time)
    requires g0.Keyed() && LegalRun(g0, tenant, Candidates(g0, tenant), steps, now)
    requires AllSettled(g0, tenant, score, steps, now)
    ensures ComparesAll(g0, tenant, score, steps, now)
  {
    var live := Candidates(g0, tenant);
    forall a, b | AreComparable(g0, tenant, a, b) && !IsMergedAway(steps, a) && !IsMergedAway(steps, b)
      ensures GaveNoReason(g0, tenant, score, steps, now, a, b) || GaveNoReason(g0, tenant, score, steps, now, b, a)
    {
      if a !in Live(live, steps) { NotLiveIsMerged(live, steps, a); }
      if b !in Live(live, steps) { NotLiveIsMerged(live, steps, b); }
      if Settled(g0, tenant, score, steps, now, a, b) {
        SettledGaveNoReason(g0, tenant, score, steps, now, a, b);
      } else {
        SettledGaveNoReason(g0, tenant, score, steps, now, b, a);
      }
    }
  }

  /** Nodes that take no part: of other tenants, not current, or standing for a fact or a source. */
  predicate IsOutsider(n: Node, tenant: Tenant) {
    n.tenant != tenant || n.status != Current || n.typ == FactNode || n.typ == SourceNode
  }

  ghost predicate OutsidersStay(before: map<Id, Node>, after: map<Id, Node>, tenant: Tenant) {
    forall n :: n in before && IsOutsider(before[n], tenant) ==> n in after && after[n] == before[n]
  }

  lemma PassSparesOutsiders(g0: Graph, after: Graph, tenant: Tenant, steps: seq<Step>)
    requires NodesKept(g0, after, Candidates(g0, tenant), steps)
    ensures OutsidersStay(g0.nodes, after.nodes, tenant)
  {}

  // ---------- the locals of a running pass ----------

  /** The locals of a running pass: they mirror the store, which is the run of the steps so far. */
  ghost predicate InStep(g0: Graph, g: Graph, tenant: Tenant, now: Time, steps: seq<Step>, listed: seq<Id>,
                         nodes: seq<Node>, merged: set<Id>, linked: set<Pair>, used: set<Id>)
  {
    && Start(g0, tenant, Candidates(g0, tenant))
    && Enumerates(listed, Candidates(g0, tenant))
    && LegalRun(g0, tenant, Candidates(g0, tenant), steps, now)
    && g == Run(g0, tenant, steps, now)
    && merged == Candidates(g0, tenant) - Live(Candidates(g0, tenant), steps)
    && linked == LinkPairs(g, tenant)
    && used == UsedIds(g0, steps)
    && Mirrors(g, listed, nodes)
  }

  /** The local copies agree with the stored nodes. */
  ghost predicate Mirrors(g: Graph, listed: seq<Id>, nodes: seq<Node>) {
    && |nodes| == |listed|
    && forall k :: 0 <= k < |listed| ==>
         listed[k] in g.nodes && nodes[k] == g.nodes[listed[k]] && nodes[k].id == listed[k]
  }

  /** Appending a legal step moves the whole pass along. */
  lemma PrefixOfLonger(steps: seq<Step>, s: Step)
    ensures (steps + [s])[..|steps + [s]| - 1] == steps
    ensures forall k :: 0 <= k <= |steps| ==> (steps + [s])[..k] == steps[..k]
  {
    forall k | 0 <= k <= |steps| ensures (steps + [s])[..k] == steps[..k] {}
  }

  lemma JustifiedSnoc(g0: Graph, tenant: Tenant, score: Scorer, now: Time, steps: seq<Step>, pairs: seq<ResolutionPair>,
                      s: Step, pair: ResolutionPair)
    requires Justified(g0, tenant, score, steps, pairs, now)
    requires StepJustified(Run(g0, tenant, steps, now), tenant, score, s, pair)
    ensures Justified(g0, tenant, score, steps + [s], pairs + [pair], now)
  {
    var longer := steps + [s];
    PrefixOfLonger(steps, s);
    forall k | 0 <= k < |longer|
      ensures StepJustified(Run(g0, tenant, longer[..k], now), tenant, score, longer[k], (pairs + [pair])[k])
    {
      if k == |steps| { TakeAll(steps); }
    }
  }

  lemma SettledStays(g0: Graph, tenant: Tenant, score: Scorer, now: Time, steps: seq<Step>, s: Step, a: Id, b: Id)
    requires Settled(g0, tenant, score, steps, now, a, b)
    ensures Settled(g0, tenant, score, steps + [s], now, a, b)
  {
    var k :| 0 <= k <= |steps| && !MatchesAt(Run(g0, tenant, steps[..k], now), tenant, score, a, b);
    PrefixOfLonger(steps, s);
    assert (steps + [s])[..k] == steps[..k];
  }

  lemma Advance(g0: Graph, tenant: Tenant, score: Scorer, now: Time, steps: seq<Step>, pairs: seq<ResolutionPair>,
                s: Step, pair: ResolutionPair)
    requires LegalRun(g0, tenant, Candidates(g0, tenant), steps, now)
    requires LegalStep(Run(g0, tenant, steps, now), Live(Candidates(g0, tenant), steps), s, UsedIds(g0, steps))
    requires Justified(g0, tenant, score, steps, pairs, now)
    requires StepJustified(Run(g0, tenant, steps, now), tenant, score, s, pair)
    ensures LegalRun(g0, tenant, Candidates(g0, tenant), steps + [s], now)
    ensures Run(g0, tenant, steps + [s], now) == ApplyStep(Run(g0, tenant, steps, now), tenant, s, now)
    ensures Justified(g0, tenant, score, steps + [s], pairs + [pair], now)
    ensures forall a, b :: Settled(g0, tenant, score, steps, now, a, b) ==>
            Settled(g0, tenant, score, steps + [s], now, a, b)
  {
    LegalOneMore(g0, tenant, Candidates(g0, tenant), steps, s, now);
    JustifiedSnoc(g0, tenant, score, now, steps, pairs, s, pair);
    forall a, b | Settled(g0, tenant, score, steps, now, a, b)
        ensures Settled(g0, tenant, score, steps + [s], now, a, b) {
      SettledStays(g0, tenant, score, now, steps, s, a, b);
    }
  }

  lemma SettledNow(g0: Graph, tenant: Tenant, score: Scorer, steps: seq<Step>, now: Time, a: Id, b: Id)
    requires !MatchesAt(Run(g0, tenant, steps, now), tenant, score, a, b)
    ensures Settled(g0, tenant, score, steps, now, a, b)
  {
    assert steps[..|steps|] == steps;
  }

  lemma MovedKeysGrow(pairs: set<Pair>, key: Pair, canonical: Id, duplicate: Id)
    ensures MovedKeys(pairs + {key}, canonical, duplicate)
         == MovedKeys(pairs, canonical, duplicate)
            + (if Mentions(key, duplicate) && OtherEnd(key, duplicate) !in {canonical, duplicate}
               then {LinkedPairKey(canonical, OtherEnd(key, duplicate))} else {})
  {}

  // ---------- the job ----------

  class EntityResolutionJob {
    const store: Neo4jClient

    constructor (store: Neo4jClient)
      ensures this.store == store
    {
      this.store := store;
    }

    /** Key surgery on the side index; the key of the merged pair itself is left to the caller. */
    method RewireLinkedPairs(pairs: set<Pair>, canonical: Id, duplicate: Id) returns (rewired: set<Pair>)
      requires canonical != duplicate
      ensures rewired + {LinkedPairKey(canonical, duplicate)}
           == RewiredPairs(pairs, canonical, duplicate) + {LinkedPairKey(canonical, duplicate)}
    {
      var order := Enumerate(pairs);
      rewired := pairs;
      ghost var moved: set<Pair> := {};
      var i := 0;
      while i < |order|
        invariant 0 <= i <= |order|
        invariant moved == MovedKeys(Elements(order[..i]), canonical, duplicate)
        invariant forall p :: p != LinkedPairKey(canonical, duplicate) ==>
                    (p in rewired <==> (p in pairs && !(Mentions(p, duplicate) && p in order[..i])) || p in moved)
      {
        var key := order[i];
        assert key in order && order[..i + 1] == order[..i] + [key];
        ElementsOfConcat(order[..i], [key]);
        MovedKeysGrow(Elements(order[..i]), key, canonical, duplicate);
        i := i + 1;
        if key.0 != duplicate && key.1 != duplicate {
          continue;
        }
        rewired := rewired - {key};
        var other := if key.0 == duplicate then key.1 else key.0;
        if other != canonical {
          rewired := rewired + {LinkedPairKey(canonical, other)};
          if other != duplicate {
            moved := moved + {LinkedPairKey(canonical, other)};
          }
        }
      }
      assert order[..i] == order && Elements(order) == pairs;
    }

    method LinkForReview(nodeA: Node, nodeB: Node, tenant: Tenant, confidence: real, relId: Id, now: Time)
      modifies store
      ensures store.State() == ApplyStep(old(store.State()), tenant, Review(nodeA.id, nodeB.id, relId, confidence), now)
    {
      store.UpsertRelationship(relId, LinkRel(tenant, EntityAliasOf, nodeA.id, nodeB.id, confidence, now));
    }

    /** Merges the later of the two nodes into the earlier and returns both as they now are. */
    method AutoMerge(nodeA: Node, nodeB: Node, tenant: Tenant, confidence: real, relId: Id, now: Time)
        returns (canonical: Node, duplicate: Node)
      requires store.State().Keyed()
      requires nodeA.id in store.nodes && store.nodes[nodeA.id] == nodeA
      requires nodeB.id in store.nodes && store.nodes[nodeB.id] == nodeB
      modifies store
      ensures var (c, d) := CanonicalFirst(nodeA, nodeB);
              && canonical == c.(aliases := MergedAliases(c, d), updatedAt := now)
              && duplicate == d.(status := Superseded, updatedAt := now)
              && store.State() == ApplyStep(old(store.State()), tenant, Merge(c.id, d.id, relId, confidence), now)
    {
      var (c, d) := CanonicalFirst(nodeA, nodeB);
      var aliases := MergedAliases(c, d);
      store.MergeEntities(c, d, aliases, relId, LinkRel(tenant, EntityMergedInto, d.id, c.id, confidence, now), now);
      canonical := c.(aliases := aliases, updatedAt := now);
      duplicate := d.(status := Superseded, updatedAt := now);
    }

    /** Copies of the nodes the pass will compare. */
    method ListCandidates(tenant: Tenant) returns (nodes: seq<Node>, ghost listed: seq<Id>)
      requires store.State().Keyed()
      ensures forall k :: 0 <= k < |nodes| ==>
                nodes[k].id in Candidates(store.State(), tenant) && nodes[k] == store.nodes[nodes[k].id]
      ensures forall c :: c in Candidates(store.State(), tenant) ==> exists k :: 0 <= k < |nodes| && nodes[k].id == c
      ensures forall k, l :: 0 <= k < l < |nodes| ==> nodes[k].id != nodes[l].id
      ensures Enumerates(listed, Candidates(store.State(), tenant))
      ensures |nodes| == |listed|
      ensures forall k :: 0 <= k < |listed| ==>
                listed[k] in store.nodes && nodes[k] == store.nodes[listed[k]] && nodes[k].id == listed[k]
    {
      var ids := store.ListNodes(tenant);
      nodes, listed := [], [];
      var i := 0;
      while i < |ids|
        invariant 0 <= i <= |ids|
        invariant Enumerates(listed, set n | n in ids[..i] && n in store.nodes && IsCandidate(store.nodes[n], tenant))
        invariant |nodes| == |listed|
        invariant forall k :: 0 <= k < |listed| ==>
                    listed[k] in store.nodes && nodes[k] == store.nodes[listed[k]] && nodes[k].id == listed[k]
      {
        assert ids[i] in ids && ids[i] !in ids[..i];
        assert ids[..i + 1] == ids[..i] + [ids[i]];
        var node := store.nodes[ids[i]];
        ghost var seen := set n | n in ids[..i] && n in store.nodes && IsCandidate(store.nodes[n], tenant);
        assert (set n | n in ids[..i + 1] && n in store.nodes && IsCandidate(store.nodes[n], tenant))
            == if IsCandidate(node, tenant) then seen + {ids[i]} else seen;
        if node.status == Current && node.typ != FactNode && node.typ != SourceNode {
          nodes, listed := nodes + [node], listed + [ids[i]];
        }
        i := i + 1;
      }
      assert ids[..i] == ids;
      assert Enumerates(listed, Candidates(store.State(), tenant));
      forall k | 0 <= k < |nodes| ensures nodes[k].id in Candidates(store.State(), tenant) {
        assert listed[k] in listed;
      }
      forall c | c in Candidates(store.State(), tenant) ensures exists k :: 0 <= k < |nodes| && nodes[k].id == c {
        var k :| 0 <= k < |listed| && listed[k] == c;
        assert nodes[k].id == c;
      }
    }

    /** One comparison that called for action: merge or link the pair, and keep the locals in step. */
    method ActOn(ghost g0: Graph, tenant: Tenant, score: Scorer, now: Time, ghost steps: seq<Step>,
                 ghost listed: seq<Id>,
                 nodes: seq<Node>, merged: set<Id>, linked: set<Pair>, used: set<Id>, report: Report, i: nat, j: nat,
                     m: Match)
        returns (nodes': seq<Node>, merged': set<Id>, linked': set<Pair>, used': set<Id>, report': Report,
                 ghost s: Step)
      requires OnTrack(g0, store.State(), tenant, score, now, steps, listed, nodes, merged, linked, used, report)
      requires i < j < |nodes| && nodes[i].id !in merged && nodes[j].id !in merged
      requires MatchesAt(store.State(), tenant, score, nodes[i].id, nodes[j].id) && score(nodes[i], nodes[j]) == Some(m)
      modifies store
      ensures OnTrack(g0, store.State(), tenant, score, now, steps + [s], listed, nodes', merged', linked', used',
                      report')
      ensures Progressed(g0, tenant, score, now, steps, s, nodes[i].id, nodes[j].id)
      ensures merged' == MergedAfter(merged, s)
    {
      var nodeA, nodeB := nodes[i], nodes[j];
      var relId := FreshId(used);
      s := NextStep(nodeA, nodeB, m, relId);
      StaysOnTrack(g0, store.State(), tenant, score, now, steps, listed, nodes, merged, linked, used, report, i, j, m,
                   relId);
      used' := used + {relId};
      report' := report.(pairs := report.pairs + [ResolutionPair(nodeA.id, nodeB.id, m.confidence, m.matchType)],
                         resolvedCount := report.resolvedCount + 1);
      if m.confidence >= AUTO_MERGE_THRESHOLD {
        var canonical, duplicate := AutoMerge(nodeA, nodeB, tenant, m.confidence, relId, now);
        nodes' := if canonical.id == nodeA.id then nodes[i := canonical][j := duplicate]
            else nodes[i := duplicate][j := canonical];
        merged' := merged + {duplicate.id};
        linked' := RewireLinkedPairs(linked, canonical.id, duplicate.id);
        linked' := linked' + {LinkedPairKey(canonical.id, duplicate.id)};
        report' := report'.(autoMergedCount := report.autoMergedCount + 1);
      } else {
        nodes', merged' := nodes, merged;
        LinkForReview(nodeA, nodeB, tenant, m.confidence, relId, now);
        linked' := linked + {LinkedPairKey(nodeA.id, nodeB.id)};
        report' := report'.(pendingReviewCount := report.pendingReviewCount + 1);
      }
    }

    method ReadLinks(links: seq<RelId>, tenant: Tenant) returns (pairs: set<Pair>)
      requires Enumerates(links, set r | r in store.rels && r.Plain? && store.rels[r].tenant == tenant)
      ensures pairs == LinkPairs(store.State(), tenant)
    {
      pairs := {};
      var i := 0;
      while i < |links|
        invariant 0 <= i <= |links|
        invariant pairs == set r | r in links[..i] && r in store.rels && IsLink(r, store.rels[r], tenant) ::
                             LinkedPairKey(store.rels[r].src, store.rels[r].dst)
      {
        assert links[i] in links && links[..i + 1] == links[..i] + [links[i]];
        var rel := store.rels[links[i]];
        if rel.typ == EntityAliasOf || rel.typ == EntityMergedInto {
          pairs := pairs + {LinkedPairKey(rel.src, rel.dst)};
        }
        i := i + 1;
      }
      assert links[..i] == links;
    }

    /** Compares position i with every later position, acting where a match calls for it. */
    method CompareRow(ghost g0: Graph, tenant: Tenant, score: Scorer, now: Time, ghost steps: seq<Step>,
                      ghost listed: seq<Id>,
                      nodes: seq<Node>, merged: set<Id>, linked: set<Pair>, used: set<Id>, report: Report, i: nat)
        returns (nodes': seq<Node>, merged': set<Id>, linked': set<Pair>, used': set<Id>, report': Report,
                 ghost steps': seq<Step>)
      requires OnTrack(g0, store.State(), tenant, score, now, steps, listed, nodes, merged, linked, used, report)
      requires RowsSettled(g0, tenant, score, steps, now, listed, i)
      requires i < |nodes| && nodes[i].id !in merged
      modifies store
      ensures OnTrack(g0, store.State(), tenant, score, now, steps', listed, nodes', merged', linked', used', report')
      ensures RowsSettled(g0, tenant, score, steps', now, listed, i + 1)
    {
      nodes', merged', linked', used', report', steps' := nodes, merged, linked, used, report, steps;
      var j := i + 1;
      while j < |nodes'|
        invariant i < j <= |nodes'| == |listed|
        invariant OnTrack(g0, store.State(), tenant, score, now, steps', listed, nodes', merged', linked', used',
                          report')
        invariant RowsSettled(g0, tenant, score, steps', now, listed, i)
        invariant RowSettled(g0, tenant, score, steps', now, listed, i, j)
        invariant nodes'[i].id !in merged'
      {
        var nodeA, nodeB := nodes'[i], nodes'[j];
        if nodeB.id in merged' || nodeA.typ != nodeB.typ || score(nodeA, nodeB).None?
           || LinkedPairKey(nodeA.id, nodeB.id) in linked'
        {
          NothingToDo(g0, store.State(), tenant, score, now, steps', listed, nodes', merged', linked', used', report',
                      i, j);
          j := j + 1;
          continue;
        }
        ghost var s;
        ghost var before := steps';
        nodes', merged', linked', used', report', s :=
          ActOn(g0, tenant, score, now, before, listed, nodes', merged', linked', used', report', i, j,
                score(nodeA, nodeB).value);
        steps' := before + [s];
        StillSettled(g0, tenant, score, before, s, now, listed, i, j);
        j := j + 1;
        if nodeA.id in merged' {
          RowDone(g0, tenant, score, steps', now, listed, i);
          return;
        }
      }
    }

    /** One pass over the tenant's current nodes. `steps` records, for the proof, what the pass did. */
    method ResolveEntities(tenant: Tenant, score: Scorer, now: Time) returns (report: Report, ghost steps: seq<Step>)
      requires store.State().Keyed()
      modifies store
      ensures LegalRun(old(store.State()), tenant, Candidates(old(store.State()), tenant), steps, now)
      ensures store.State() == Run(old(store.State()), tenant, steps, now)
      ensures ReportFits(report, steps)
      ensures Justified(old(store.State()), tenant, score, steps, report.pairs, now)
      ensures AllSettled(old(store.State()), tenant, score, steps, now)
      ensures Quotient(old(store.State()), store.State(), tenant, Candidates(old(store.State()), tenant), steps)
      ensures OutsidersStay(old(store.nodes), store.nodes, tenant)
      ensures ActsOnPairs(old(store.State()), tenant, score, steps, report.pairs, now)
      ensures ComparesAll(old(store.State()), tenant, score, steps, now)
    {
      ghost var g0 := store.State();
      var nodes, listed := ListCandidates(tenant);
      report := Report(0, 0, 0, []);
      steps := [];
      var merged: set<Id> := {};
      var links := store.ListRelationships(tenant);
      var linked := ReadLinks(links, tenant);
      var used := PlainIds(store.rels);
      var i := 0;
      while i < |nodes|
        invariant 0 <= i <= |nodes| == |listed|
        invariant OnTrack(g0, store.State(), tenant, score, now, steps, listed, nodes, merged, linked, used, report)
        invariant RowsSettled(g0, tenant, score, steps, now, listed, i)
      {
        if nodes[i].id in merged {
          RowDone(g0, tenant, score, steps, now, listed, i);
        } else {
          nodes, merged, linked, used, report, steps :=
            CompareRow(g0, tenant, score, now, steps, listed, nodes, merged, linked, used, report, i);
        }
        i := i + 1;
      }
      RowsCoverPairs(g0, tenant, score, steps, now, listed);
      RunIsQuotient(g0, tenant, Candidates(g0, tenant), steps, now);
      PassSparesOutsiders(g0, store.State(), tenant, steps);
      PassActsOnPairs(g0, tenant, score, steps, report.pairs, now);
      PassComparesAll(g0, tenant, score, steps, now);
    }
  }

  ghost predicate OnTrack(g0: Graph, g: Graph, tenant: Tenant, score: Scorer, now: Time, steps: seq<Step>,
                          listed: seq<Id>,
                          nodes: seq<Node>, merged: set<Id>, linked: set<Pair>, used: set<Id>, report: Report)
  {
    && InStep(g0, g, tenant, now, steps, listed, nodes, merged, linked, used)
    && ReportFits(report, steps)
    && Justified(g0, tenant, score, steps, report.pairs, now)
  }

  function ReportAfter(report: Report, a: Node, b: Node, m: Match): Report {
    var counted := report.(pairs := report.pairs + [ResolutionPair(a.id, b.id, m.confidence, m.matchType)],
                           resolvedCount := report.resolvedCount + 1);
    if m.confidence >= AUTO_MERGE_THRESHOLD then counted.(autoMergedCount := report.autoMergedCount + 1)
    else counted.(pendingReviewCount := report.pendingReviewCount + 1)
  }

  lemma StaysOnTrack(g0: Graph, g: Graph, tenant: Tenant, score: Scorer, now: Time, steps: seq<Step>, listed: seq<Id>,
                     nodes: seq<Node>, merged: set<Id>, linked: set<Pair>, used: set<Id>, report: Report,
                     i: nat, j: nat, m: Match, relId: Id)
    requires OnTrack(g0, g, tenant, score, now, steps, listed, nodes, merged, linked, used, report)
    requires i < j < |nodes| && nodes[i].id !in merged && nodes[j].id !in merged && relId !in used
    requires MatchesAt(g, tenant, score, nodes[i].id, nodes[j].id) && score(nodes[i], nodes[j]) == Some(m)
    ensures g.Keyed()
    ensures var s := NextStep(nodes[i], nodes[j], m, relId);
            && OnTrack(g0, ApplyStep(g, tenant, s, now), tenant, score, now, steps + [s], listed,
                       if s.Merge? then MergedCopies(nodes, i, j, now) else nodes,
                       MergedAfter(merged, s), LinkedAfter(linked, s), used + {s.rel},
                           ReportAfter(report, nodes[i], nodes[j], m))
            && Progressed(g0, tenant, score, now, steps, s, nodes[i].id, nodes[j].id)
            && (s.Merge? ==> s.canonical != s.duplicate)
  {
    var s := NextStep(nodes[i], nodes[j], m, relId);
    var pair := ResolutionPair(nodes[i].id, nodes[j].id, m.confidence, m.matchType);
    LegalNext(g0, g, tenant, score, now, steps, listed, nodes, merged, linked, used, i, j, m, relId);
    CopiesMirror(g, tenant, now, listed, nodes, i, j, m, relId);
    StayInStep(g0, g, tenant, now, steps, listed, nodes, merged, linked, used, s,
               if s.Merge? then MergedCopies(nodes, i, j, now) else nodes);
    Advance(g0, tenant, score, now, steps, report.pairs, s, pair);
    ReportStays(report, steps, nodes[i], nodes[j], m, relId);
    Progress(g0, g, tenant, score, now, steps, report.pairs, s, pair);
  }

  lemma ReportStays(report: Report, steps: seq<Step>, a: Node, b: Node, m: Match, relId: Id)
    requires ReportFits(report, steps)
    ensures ReportFits(ReportAfter(report, a, b, m), steps + [NextStep(a, b, m, relId)])
  {
    var s := NextStep(a, b, m, relId);
    assert (steps + [s])[..|steps + [s]| - 1] == steps;
    CountIsBounded(steps);
  }

  lemma {:induction false} CountIsBounded(steps: seq<Step>)
    ensures CountMerges(steps) <= |steps|
  {
    if steps != [] { CountIsBounded(steps[..|steps| - 1]); }
  }

  function NextStep(a: Node, b: Node, m: Match, relId: Id): Step {
    if m.confidence >= AUTO_MERGE_THRESHOLD
    then var (c, d) := CanonicalFirst(a, b); Merge(c.id, d.id, relId, m.confidence)
    else Review(a.id, b.id, relId, m.confidence)
  }

  lemma LegalNext(g0: Graph, g: Graph, tenant: Tenant, score: Scorer, now: Time, steps: seq<Step>, listed: seq<Id>,
                  nodes: seq<Node>, merged: set<Id>, linked: set<Pair>, used: set<Id>, i: nat, j: nat, m: Match,
                      relId: Id)
    requires InStep(g0, g, tenant, now, steps, listed, nodes, merged, linked, used)
    requires i < j < |nodes| && nodes[i].id !in merged && nodes[j].id !in merged && relId !in used
    requires MatchesAt(g, tenant, score, nodes[i].id, nodes[j].id) && score(nodes[i], nodes[j]) == Some(m)
    ensures g.Keyed() && Plain(relId) !in g.rels && nodes[i].id != nodes[j].id
    ensures g.nodes[nodes[i].id].tenant == tenant && g.nodes[nodes[j].id].tenant == tenant
    ensures LegalStep(g, Live(Candidates(g0, tenant), steps), NextStep(nodes[i], nodes[j], m, relId),
                      UsedIds(g0, steps))
    ensures StepJustified(g, tenant, score, NextStep(nodes[i], nodes[j], m, relId),
                          ResolutionPair(nodes[i].id, nodes[j].id, m.confidence, m.matchType))
  {
    KeysAfterRun(g0, tenant, Candidates(g0, tenant), steps, now);
    NodesAfterRun(g0, tenant, Candidates(g0, tenant), steps, now);
    assert listed[i] in listed && listed[j] in listed;
    assert Plain(relId) in g.rels ==> relId in PlainIds(g.rels);
  }

  /** The local copies after a merge of positions i and j. */
  function MergedCopies(nodes: seq<Node>, i: nat, j: nat, now: Time): seq<Node>
    requires i < |nodes| && j < |nodes|
  {
    var (c, d) := CanonicalFirst(nodes[i], nodes[j]);
    var canonical, duplicate := c.(aliases := MergedAliases(c, d), updatedAt := now),
        d.(status := Superseded, updatedAt := now);
    if c.id == nodes[i].id then nodes[i := canonical][j := duplicate] else nodes[i := duplicate][j := canonical]
  }

  lemma CopiesMirror(g: Graph, tenant: Tenant, now: Time, listed: seq<Id>, nodes: seq<Node>, i: nat, j: nat, m: Match,
                     relId: Id)
    requires Mirrors(g, listed, nodes) && i < j < |nodes|
    requires forall p, q :: 0 <= p < q < |listed| ==> listed[p] != listed[q]
    ensures var s := NextStep(nodes[i], nodes[j], m, relId);
            Mirrors(ApplyStep(g, tenant, s, now), listed, if s.Merge? then MergedCopies(nodes, i, j, now) else nodes)
  {
    var s := NextStep(nodes[i], nodes[j], m, relId);
    var g' := ApplyStep(g, tenant, s, now);
    var nodes' := if s.Merge? then MergedCopies(nodes, i, j, now) else nodes;
    forall k | 0 <= k < |listed|
      ensures listed[k] in g'.nodes && nodes'[k] == g'.nodes[listed[k]] && nodes'[k].id == listed[k]
    {
      assert k != i ==> listed[k] != listed[i];
      assert k != j ==> listed[k] != listed[j];
    }
  }

  function LinkedAfter(linked: set<Pair>, s: Step): set<Pair> {
    match s
    case Merge(c, d, _, _) => RewiredPairs(linked, c, d) + {LinkedPairKey(c, d)}
    case Review(a, b, _, _) => linked + {LinkedPairKey(a, b)}
  }

  lemma LinkedFollows(g: Graph, tenant: Tenant, s: Step, now: Time)
    requires g.Keyed() && Plain(s.rel) !in g.rels
    requires s.Merge? ==> s.canonical in g.nodes && s.duplicate in g.nodes && s.canonical != s.duplicate
                          && g.nodes[s.canonical].tenant == tenant
    ensures LinkPairs(ApplyStep(g, tenant, s, now), tenant) == LinkedAfter(LinkPairs(g, tenant), s)
  {
    if s.Merge? {
      LinkPairsAfterMerge(g, tenant, s, now);
    } else {
      LinkPairsAfterReview(g, tenant, s, now);
    }
  }

  function MergedAfter(merged: set<Id>, s: Step): set<Id> {
    if s.Merge? then merged + {s.duplicate} else merged
  }

  lemma StayInStep(g0: Graph, g: Graph, tenant: Tenant, now: Time, steps: seq<Step>, listed: seq<Id>,
                   nodes: seq<Node>, merged: set<Id>, linked: set<Pair>, used: set<Id>, s: Step, nodes': seq<Node>)
    requires InStep(g0, g, tenant, now, steps, listed, nodes, merged, linked, used)
    requires g.Keyed() && Plain(s.rel) !in g.rels
    requires LegalStep(g, Live(Candidates(g0, tenant), steps), s, UsedIds(g0, steps))
    requires s.Merge? ==> g.nodes[s.canonical].tenant == tenant
    requires Mirrors(ApplyStep(g, tenant, s, now), listed, nodes')
    ensures InStep(g0, ApplyStep(g, tenant, s, now), tenant, now, steps + [s], listed, nodes',
                   MergedAfter(merged, s), LinkedAfter(linked, s), used + {s.rel})
  {
    assert (steps + [s])[..|steps + [s]| - 1] == steps;
    LiveSnoc(Candidates(g0, tenant), steps, s);
    UsedSnoc(g0, steps, s);
    LinkedFollows(g, tenant, s, now);
  }

  /** A step only shrinks the live set, keeps what was settled, and settles the pair it acted on. */
  ghost predicate Progressed(g0: Graph, tenant: Tenant, score: Scorer, now: Time, steps: seq<Step>, s: Step, a: Id,
                             b: Id) {
    && Live(Candidates(g0, tenant), steps + [s]) <= Live(Candidates(g0, tenant), steps)
    && (forall x, y :: Settled(g0, tenant, score, steps, now, x, y) ==>
        Settled(g0, tenant, score, steps + [s], now, x, y))
    && Settled(g0, tenant, score, steps + [s], now, a, b)
  }

  lemma Progress(g0: Graph, g: Graph, tenant: Tenant, score: Scorer, now: Time, steps: seq<Step>,
                 pairs: seq<ResolutionPair>, s: Step, pair: ResolutionPair)
    requires g == Run(g0, tenant, steps, now) && g.Keyed() && Plain(s.rel) !in g.rels
    requires LegalRun(g0, tenant, Candidates(g0, tenant), steps, now)
    requires LegalStep(g, Live(Candidates(g0, tenant), steps), s, UsedIds(g0, steps))
    requires Justified(g0, tenant, score, steps, pairs, now) && StepJustified(g, tenant, score, s, pair)
    requires g.nodes[pair.nodeA].tenant == tenant && g.nodes[pair.nodeB].tenant == tenant
    ensures Progressed(g0, tenant, score, now, steps, s, pair.nodeA, pair.nodeB)
  {
    Advance(g0, tenant, score, now, steps, pairs, s, pair);
    LiveSnoc(Candidates(g0, tenant), steps, s);
    LinkedFollows(g, tenant, s, now);
    SettledNow(g0, tenant, score, steps + [s], now, pair.nodeA, pair.nodeB);
  }

  /** Every pair of survivors was looked at, in one order, and gave no reason to act. */
  ghost predicate AllSettled(g0: Graph, tenant: Tenant, score: Scorer, steps: seq<Step>, now: Time) {
    forall a, b :: a in Live(Candidates(g0, tenant), steps) && b in Live(Candidates(g0, tenant), steps) && a != b ==>
      Settled(g0, tenant, score, steps, now, a, b) || Settled(g0, tenant, score, steps, now, b, a)
  }

  ghost predicate RowSettled(g0: Graph, tenant: Tenant, score: Scorer, steps: seq<Step>, now: Time, listed: seq<Id>,
                             p: int, n: int)
  {
    forall q :: 0 <= p < q < n <= |listed| && Both(g0, tenant, steps, listed[p], listed[q]) ==>
      Settled(g0, tenant, score, steps, now, listed[p], listed[q])
  }

  ghost predicate Both(g0: Graph, tenant: Tenant, steps: seq<Step>, a: Id, b: Id) {
    a in Live(Candidates(g0, tenant), steps) && b in Live(Candidates(g0, tenant), steps)
  }

  ghost predicate RowsSettled(g0: Graph, tenant: Tenant, score: Scorer, steps: seq<Step>, now: Time, listed: seq<Id>,
                              n: int) {
    forall p :: 0 <= p < n <= |listed| ==> RowSettled(g0, tenant, score, steps, now, listed, p, |listed|)
  }

  lemma RowDone(g0: Graph, tenant: Tenant, score: Scorer, steps: seq<Step>, now: Time, listed: seq<Id>, p: nat)
    requires p < |listed| && listed[p] !in Live(Candidates(g0, tenant), steps)
    requires RowsSettled(g0, tenant, score, steps, now, listed, p)
    ensures RowsSettled(g0, tenant, score, steps, now, listed, p + 1)
  {
    forall q | 0 <= q < p + 1 ensures RowSettled(g0, tenant, score, steps, now, listed, q, |listed|) {}
  }

  lemma NothingToDo(g0: Graph, g: Graph, tenant: Tenant, score: Scorer, now: Time, steps: seq<Step>, listed: seq<Id>,
                    nodes: seq<Node>, merged: set<Id>, linked: set<Pair>, used: set<Id>, report: Report, i: nat, j: nat)
    requires OnTrack(g0, g, tenant, score, now, steps, listed, nodes, merged, linked, used, report)
    requires i < j < |nodes| && RowSettled(g0, tenant, score, steps, now, listed, i, j)
    requires nodes[j].id in merged || !MatchesAt(g, tenant, score, nodes[i].id, nodes[j].id)
    ensures RowSettled(g0, tenant, score, steps, now, listed, i, j + 1)
  {
    if !MatchesAt(g, tenant, score, nodes[i].id, nodes[j].id) {
      SettledNow(g0, tenant, score, steps, now, nodes[i].id, nodes[j].id);
    } else {
      assert nodes[j].id == listed[j] && !Both(g0, tenant, steps, listed[i], listed[j]);
    }
    ExtendRow(g0, tenant, score, steps, now, listed, i, j);
  }

  lemma ExtendRow(g0: Graph, tenant: Tenant, score: Scorer, steps: seq<Step>, now: Time, listed: seq<Id>, i: nat,
                  j: nat)
    requires i < j < |listed| && RowSettled(g0, tenant, score, steps, now, listed, i, j)
    requires Both(g0, tenant, steps, listed[i], listed[j]) ==>
             Settled(g0, tenant, score, steps, now, listed[i], listed[j])
    ensures RowSettled(g0, tenant, score, steps, now, listed, i, j + 1)
  {}

  lemma StillSettled(g0: Graph, tenant: Tenant, score: Scorer, steps: seq<Step>, s: Step, now: Time, listed: seq<Id>,
                     i: nat, j: nat)
    requires i < j < |listed|
    requires RowsSettled(g0, tenant, score, steps, now, listed, i)
             && RowSettled(g0, tenant, score, steps, now, listed, i, j)
    requires Progressed(g0, tenant, score, now, steps, s, listed[i], listed[j])
    ensures RowsSettled(g0, tenant, score, steps + [s], now, listed, i)
    ensures RowSettled(g0, tenant, score, steps + [s], now, listed, i, j + 1)
  {
    forall p | 0 <= p < i ensures RowSettled(g0, tenant, score, steps + [s], now, listed, p, |listed|) {
      assert RowSettled(g0, tenant, score, steps, now, listed, p, |listed|);
    }
  }

  lemma RowsCoverPairs(g0: Graph, tenant: Tenant, score: Scorer, steps: seq<Step>, now: Time, listed: seq<Id>)
    requires Enumerates(listed, Candidates(g0, tenant))
    requires RowsSettled(g0, tenant, score, steps, now, listed, |listed|)
    ensures AllSettled(g0, tenant, score, steps, now)
  {
    forall a, b | Both(g0, tenant, steps, a, b) && a != b
      ensures Settled(g0, tenant, score, steps, now, a, b) || Settled(g0, tenant, score, steps, now, b, a)
    {
      assert a in listed && b in listed;
      var p :| 0 <= p < |listed| && listed[p] == a;
      var q :| 0 <= q < |listed| && listed[q] == b;
      assert RowSettled(g0, tenant, score, steps, now, listed, if p < q then p else q, |listed|);
    }
  }
}