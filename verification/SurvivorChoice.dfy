/** Which node of a cluster survives a resolution pass, and when it is the (created_at, id)-least one. */
module SurvivorChoice {
  import opened Common
  import opened GraphModel
  import opened GraphStore
  import opened ResolutionRuns
  import opened ResolutionTheorems
  import opened EntityResolution

  /** An undated node whose id lies between those of two dated nodes, the later-created of which has the smaller id. */
  predicate Straddles(a: Node, b: Node, c: Node) {
    && a.id < b.id < c.id
    && a.createdAt.At? && !b.createdAt.At? && c.createdAt.At?
    && c.createdAt.ms < a.createdAt.ms
  }

  /** Choosing the canonical node is transitive exactly on nodes no two of which straddle the third. */
  lemma WinsIsTransitive(a: Node, b: Node, c: Node)
    requires Wins(a, b) && Wins(b, c)
    requires (a.id == b.id ==> a == b) && (b.id == c.id ==> b == c) && (a.id == c.id ==> a == c)
    ensures Wins(a, c) <==> !(Straddles(a, b, c) || Straddles(b, c, a) || Straddles(c, a, b))
  {}

  ghost predicate IsStraddled(g: Graph, some: set<Id>)
    requires some <= g.nodes.Keys
  {
    exists a, b, c :: a in some && b in some && c in some && Straddles(g.nodes[a], g.nodes[b], g.nodes[c])
  }

  /** The node's representative is in the pass and would have won against it directly. */
  ghost predicate RepWins(g: Graph, live: set<Id>, steps: seq<Step>, x: Id)
    requires live <= g.nodes.Keys
  {
    x in live && Rep(steps, x) in live && Wins(g.nodes[Rep(steps, x)], g.nodes[x])
  }

  ghost predicate AlwaysLeast(g: Graph, tenant: Tenant, live: set<Id>, now: Time)
    requires live <= g.nodes.Keys
  {
    forall steps, x :: LegalRun(g, tenant, live, steps, now) && x in live ==> RepWins(g, live, steps, x)
  }

  lemma StillLeast(g: Graph, live: set<Id>, init: seq<Step>, s: Step, x: Id)
    requires g.Keyed() && live <= g.nodes.Keys && RepWins(g, live, init, x) && !IsStraddled(g, live)
    requires s.Merge? ==> s.canonical in live && s.duplicate in live && Wins(g.nodes[s.canonical], g.nodes[s.duplicate])
    ensures RepWins(g, live, init + [s], x)
  {
    assert (init + [s])[..|init + [s]| - 1] == init;
    if s.Merge? && Rep(init, x) == s.duplicate {
      WinsIsTransitive(g.nodes[s.canonical], g.nodes[s.duplicate], g.nodes[x]);
    }
  }

  lemma {:induction false} SurvivorIsLeast(g: Graph, tenant: Tenant, live: set<Id>, steps: seq<Step>, now: Time, x: Id)
    requires Start(g, tenant, live) && LegalRun(g, tenant, live, steps, now)
    requires !IsStraddled(g, live) && x in live
    ensures RepWins(g, live, steps, x)
  {
    if steps != [] {
      var init, s, before := LastStep(g, tenant, live, steps, now);
      SurvivorIsLeast(g, tenant, live, init, now, x);
      StillLeast(g, live, init, s, x);
    }
  }

  lemma FirstMerge(g: Graph, tenant: Tenant, live: set<Id>, now: Time, s: Step)
    requires Start(g, tenant, live) && s.Merge? && s.canonical in live && s.duplicate in live
             && s.canonical != s.duplicate
    requires Wins(g.nodes[s.canonical], g.nodes[s.duplicate]) && s.rel !in PlainIds(g.rels)
    ensures LegalRun(g, tenant, live, [s], now) && Run(g, tenant, [s], now) == ApplyStep(g, tenant, s, now)
    ensures Live(live, [s]) == live - {s.duplicate} && UsedIds(g, [s]) == PlainIds(g.rels) + {s.rel}
    ensures forall x :: Rep([s], x) == Redirect(x, s.duplicate, s.canonical)
  {
    assert Live(live, []) == live && UsedIds(g, []) == PlainIds(g.rels);
    LegalOneMore(g, tenant, live, [], s, now);
    assert [] + [s] == [s];
  }

  /** A merge after another: it was legal at the start, and neither node was merged away since. */
  lemma SecondMerge(g: Graph, tenant: Tenant, live: set<Id>, now: Time, first: Step, s: Step)
    requires Start(g, tenant, live) && LegalRun(g, tenant, live, [first], now)
    requires s.Merge? && s.canonical in Live(live, [first]) && s.duplicate in Live(live, [first])
             && s.canonical != s.duplicate
    requires Wins(g.nodes[s.canonical], g.nodes[s.duplicate]) && s.rel !in UsedIds(g, [first])
    ensures LegalRun(g, tenant, live, [first] + [s], now)
    ensures Live(live, [first] + [s]) == Live(live, [first]) - {s.duplicate}
    ensures forall x :: Rep([first] + [s], x) == Redirect(Rep([first], x), s.duplicate, s.canonical)
  {
    var before := Run(g, tenant, [first], now);
    NodesAfterRun(g, tenant, live, [first], now);
    assert SameIdentity(before.nodes[s.canonical], g.nodes[s.canonical]);
    assert SameIdentity(before.nodes[s.duplicate], g.nodes[s.duplicate]);
    LegalOneMore(g, tenant, live, [first], s, now);
  }

  /** With a straddled node, two merges make the survivor a node that is not the least of its cluster. */
  lemma StraddledNodeBreaksLeast(g: Graph, tenant: Tenant, live: set<Id>, now: Time, a: Id, b: Id, c: Id)
      returns (first: Step, second: Step)
    requires Start(g, tenant, live) && a in live && b in live && c in live
    requires Straddles(g.nodes[a], g.nodes[b], g.nodes[c])
    ensures first == Merge(b, c, first.rel, 1.0) && second == Merge(a, b, second.rel, 1.0)
    ensures Plain(first.rel) !in g.rels && Run(g, tenant, [first], now) == ApplyStep(g, tenant, first, now)
    ensures LegalRun(g, tenant, live, [first] + [second], now)
    ensures Live(live, [first] + [second]) == live - {b, c}
    ensures Rep([first] + [second], c) == a && !RepWins(g, live, [first] + [second], c)
  {
    var r := FreshId(PlainIds(g.rels));
    assert Plain(r) in g.rels ==> r in PlainIds(g.rels);
    first := Merge(b, c, r, 1.0);
    FirstMerge(g, tenant, live, now, first);
    second := Merge(a, b, r + 1, 1.0);
    SecondMerge(g, tenant, live, now, first, second);
  }

  lemma StraddledIsNotAlwaysLeast(g: Graph, tenant: Tenant, live: set<Id>, now: Time)
    requires Start(g, tenant, live) && IsStraddled(g, live)
    ensures !AlwaysLeast(g, tenant, live, now)
  {
    var a, b, c :| a in live && b in live && c in live && Straddles(g.nodes[a], g.nodes[b], g.nodes[c]);
    var steps := StraddlingRun(g, tenant, live, now, a, b, c);
  }

  lemma StraddlingRun(g: Graph, tenant: Tenant, live: set<Id>, now: Time, a: Id, b: Id, c: Id)
      returns (steps: seq<Step>)
    requires Start(g, tenant, live) && a in live && b in live && c in live
    requires Straddles(g.nodes[a], g.nodes[b], g.nodes[c])
    ensures LegalRun(g, tenant, live, steps, now) && !RepWins(g, live, steps, c)
  {
    var first, second := StraddledNodeBreaksLeast(g, tenant, live, now, a, b, c);
    steps := [first] + [second];
  }

  /** The survivor is the (created_at, id)-least node of its cluster after every legal run, exactly when no undated node
      is straddled by two dated ones; in particular when every node is dated. */
  lemma SurvivorIsLeastExactlyWhen(g: Graph, tenant: Tenant, live: set<Id>, now: Time)
    requires Start(g, tenant, live)
    ensures AlwaysLeast(g, tenant, live, now) <==> !IsStraddled(g, live)
  {
    if IsStraddled(g, live) {
      StraddledIsNotAlwaysLeast(g, tenant, live, now);
    } else {
      forall steps, x | LegalRun(g, tenant, live, steps, now) && x in live ensures RepWins(g, live, steps, x) {
        SurvivorIsLeast(g, tenant, live, steps, now, x);
      }
    }
  }

  /** When every candidate is dated, the survivor is the oldest node of its cluster, and of equally old ones the one
      with the smallest id. */
  lemma OldestSurvives(g: Graph, tenant: Tenant, live: set<Id>, steps: seq<Step>, now: Time, x: Id)
    requires Start(g, tenant, live) && LegalRun(g, tenant, live, steps, now) && x in live
    requires forall n :: n in live ==> g.nodes[n].createdAt.At?
    ensures var r := Rep(steps, x);
            && r in live
            && (|| g.nodes[r].createdAt.ms < g.nodes[x].createdAt.ms
                || (g.nodes[r].createdAt.ms == g.nodes[x].createdAt.ms && r <= x))
  {
    SurvivorIsLeast(g, tenant, live, steps, now, x);
  }

  // ---------- whole passes, with scores, types and links ----------

  /** What a pass of the job guarantees about its steps. */
  ghost predicate IsPass(g: Graph, tenant: Tenant, score: Scorer, steps: seq<Step>, pairs: seq<ResolutionPair>,
                         now: Time) {
    && LegalRun(g, tenant, Candidates(g, tenant), steps, now)
    && Justified(g, tenant, score, steps, pairs, now)
    && AllSettled(g, tenant, score, steps, now)
  }

  /** Only nodes of one type are ever merged, so only those can straddle one another. */
  ghost predicate IsStraddledByType(g: Graph, some: set<Id>)
    requires some <= g.nodes.Keys
  {
    exists a, b, c :: a in some && b in some && c in some && StraddlesByType(g.nodes[a], g.nodes[b], g.nodes[c])
  }

  predicate StraddlesByType(a: Node, b: Node, c: Node) {
    Straddles(a, b, c) && a.typ == b.typ == c.typ
  }

  ghost predicate Unlinked(g: Graph, tenant: Tenant) {
    forall x, y :: x in Candidates(g, tenant) && y in Candidates(g, tenant) ==>
        LinkedPairKey(x, y) !in LinkPairs(g, tenant)
  }

  ghost predicate PassesChooseLeast(g: Graph, tenant: Tenant, now: Time) {
    forall score: Scorer, steps, pairs, x ::
      IsPass(g, tenant, score, steps, pairs, now) && x in Candidates(g, tenant) ==>
        RepWins(g, Candidates(g, tenant), steps, x)
  }

  lemma LastIsJustified(g: Graph, tenant: Tenant, score: Scorer, steps: seq<Step>, pairs: seq<ResolutionPair>,
                        now: Time,
                        init: seq<Step>, s: Step)
      returns (earlier: seq<ResolutionPair>, pair: ResolutionPair)
    requires steps == init + [s] && Justified(g, tenant, score, steps, pairs, now)
    ensures Justified(g, tenant, score, init, earlier, now)
    ensures StepJustified(Run(g, tenant, init, now), tenant, score, s, pair)
  {
    var n := |init|;
    earlier, pair := pairs[..n], pairs[n];
    assert steps[..n] == init && steps[n] == s;
    assert StepJustified(Run(g, tenant, steps[..n], now), tenant, score, steps[n], pairs[n]);
    forall k | 0 <= k < n ensures StepJustified(Run(g, tenant, init[..k], now), tenant, score, init[k], earlier[k]) {
      assert init[..k] == steps[..k] && init[k] == steps[k];
    }
  }

  lemma MergesOneType(g: Graph, before: Graph, tenant: Tenant, score: Scorer, live: set<Id>, init: seq<Step>, s: Step,
                      pair: ResolutionPair)
    requires NodesKept(g, before, live, init) && before.Keyed() && s.Merge?
    requires StepJustified(before, tenant, score, s, pair)
    ensures s.canonical in g.nodes && s.duplicate in g.nodes && g.nodes[s.canonical].typ == g.nodes[s.duplicate].typ
  {
    assert SameIdentity(before.nodes[pair.nodeA], g.nodes[pair.nodeA]);
    assert SameIdentity(before.nodes[pair.nodeB], g.nodes[pair.nodeB]);
  }

  /** Having won as far as the run went, and being of the node's own type. */
  ghost predicate RepStands(g: Graph, live: set<Id>, steps: seq<Step>, x: Id)
    requires live <= g.nodes.Keys
  {
    RepWins(g, live, steps, x) && g.nodes[Rep(steps, x)].typ == g.nodes[x].typ
  }

  lemma StillStands(g: Graph, live: set<Id>, init: seq<Step>, s: Step, x: Id)
    requires g.Keyed() && live <= g.nodes.Keys && RepStands(g, live, init, x) && !IsStraddledByType(g, live)
    requires s.Merge? ==>
               && s.canonical in live && s.duplicate in live && Wins(g.nodes[s.canonical], g.nodes[s.duplicate])
               && g.nodes[s.canonical].typ == g.nodes[s.duplicate].typ
    ensures RepStands(g, live, init + [s], x)
  {
    assert (init + [s])[..|init + [s]| - 1] == init;
    if s.Merge? && Rep(init, x) == s.duplicate {
      var c, d, n := g.nodes[s.canonical], g.nodes[s.duplicate], g.nodes[x];
      assert !StraddlesByType(c, d, n) && !StraddlesByType(d, n, c) && !StraddlesByType(n, c, d);
      WinsIsTransitive(c, d, n);
    }
  }

  /** In a pass the survivor has the type of the nodes it stands for, so only those of its type can mislead the
      choice. */
  lemma {:induction false} SurvivorOfPassIsLeast(
      g: Graph, tenant: Tenant, score: Scorer, steps: seq<Step>, pairs: seq<ResolutionPair>, now: Time, x: Id)
    requires g.Keyed() && x in Candidates(g, tenant) && !IsStraddledByType(g, Candidates(g, tenant))
    requires LegalRun(g, tenant, Candidates(g, tenant), steps, now) && Justified(g, tenant, score, steps, pairs, now)
    ensures RepStands(g, Candidates(g, tenant), steps, x)
  {
    if steps != [] {
      var live := Candidates(g, tenant);
      var init, s, before := LastStep(g, tenant, live, steps, now);
      var earlier, pair := LastIsJustified(g, tenant, score, steps, pairs, now, init, s);
      SurvivorOfPassIsLeast(g, tenant, score, init, earlier, now, x);
      if s.Merge? {
        NodesAfterRun(g, tenant, live, init, now);
        MergesOneType(g, before, tenant, score, live, init, s, pair);
      }
      StillStands(g, live, init, s, x);
    }
  }

  /** A scorer sure of two pairs of ids and of nothing else. */
  function SureOf(a: Id, b: Id, c: Id): Scorer {
    (m: Node, n: Node) =>
      if LinkedPairKey(m.id, n.id) == LinkedPairKey(a, b) || LinkedPairKey(m.id, n.id) == LinkedPairKey(b, c)
      then Some(Match(1.0, ExactName)) else None
  }

  lemma PairIsKey(g: Graph, tenant: Tenant, p: Pair, d: Id)
    requires p in LinkPairs(g, tenant) && Mentions(p, d)
    ensures p == LinkedPairKey(OtherEnd(p, d), d)
  {
    var r := PairHasLink(g, tenant, p);
  }

  lemma KeysMeet(a: Id, c: Id, x: Id)
    requires a != c
    ensures LinkedPairKey(a, c) == LinkedPairKey(c, x) <==> x == a
  {}

  /** Merging two nodes links neither to a third that was linked to neither. */
  lemma StillUnlinked(g: Graph, tenant: Tenant, now: Time, s: Step, a: Id)
    requires g.Keyed() && Plain(s.rel) !in g.rels
    requires s.Merge? && s.canonical in g.nodes && s.duplicate in g.nodes && g.nodes[s.canonical].tenant == tenant
    requires s.canonical != s.duplicate && a !in {s.canonical, s.duplicate}
    requires LinkedPairKey(a, s.canonical) !in LinkPairs(g, tenant)
             && LinkedPairKey(a, s.duplicate) !in LinkPairs(g, tenant)
    ensures LinkedPairKey(a, s.canonical) !in LinkPairs(ApplyStep(g, tenant, s, now), tenant)
  {
    LinkPairsAfterMerge(g, tenant, s, now);
    KeysMeet(a, s.canonical, s.duplicate);
    forall p | p in LinkPairs(g, tenant) && Mentions(p, s.duplicate)
      ensures LinkedPairKey(a, s.canonical) != LinkedPairKey(s.canonical, OtherEnd(p, s.duplicate))
    {
      PairIsKey(g, tenant, p, s.duplicate);
      KeysMeet(a, s.canonical, OtherEnd(p, s.duplicate));
    }
  }

  /** A sure match of two nodes of one type that are not linked yet is merged, the winner first. */
  lemma MergeIsJustified(g: Graph, tenant: Tenant, score: Scorer, s: Step)
    requires s.Merge? && s.canonical in g.nodes && s.duplicate in g.nodes && s.confidence == 1.0
    requires g.nodes[s.canonical].id == s.canonical && g.nodes[s.duplicate].id == s.duplicate
    requires Wins(g.nodes[s.canonical], g.nodes[s.duplicate]) && g.nodes[s.canonical].typ == g.nodes[s.duplicate].typ
    requires score(g.nodes[s.canonical], g.nodes[s.duplicate]) == Some(Match(1.0, ExactName))
    requires LinkedPairKey(s.canonical, s.duplicate) !in LinkPairs(g, tenant)
    ensures StepJustified(g, tenant, score, s, ResolutionPair(s.canonical, s.duplicate, 1.0, ExactName))
  {}

  /** A pass that is sure of a and b, and of b and c, goes wrong on a straddled node that no link protects. */
  lemma StraddledNodeMisleadsPass(g: Graph, tenant: Tenant, now: Time, a: Id, b: Id, c: Id)
      returns (steps: seq<Step>, pairs: seq<ResolutionPair>)
    requires g.Keyed() && a in Candidates(g, tenant) && b in Candidates(g, tenant) && c in Candidates(g, tenant)
    requires StraddlesByType(g.nodes[a], g.nodes[b], g.nodes[c])
    requires LinkedPairKey(a, b) !in LinkPairs(g, tenant) && LinkedPairKey(b, c) !in LinkPairs(g, tenant)
    requires LinkedPairKey(a, c) !in LinkPairs(g, tenant)
    ensures IsPass(g, tenant, SureOf(a, b, c), steps, pairs, now)
    ensures Rep(steps, c) == a && !RepWins(g, Candidates(g, tenant), steps, c)
  {
    var live, score := Candidates(g, tenant), SureOf(a, b, c);
    var first, second := StraddledNodeBreaksLeast(g, tenant, live, now, a, b, c);
    steps := [first] + [second];
    pairs := [ResolutionPair(b, c, 1.0, ExactName), ResolutionPair(a, b, 1.0, ExactName)];
    MergeIsJustified(g, tenant, score, first);
    SecondIsJustified(g, tenant, now, first, second, a, b, c);
    assert steps[..0] == [] && steps[..1] == [first];
    assert Justified(g, tenant, score, steps, pairs, now);
    NothingLeft(g, tenant, steps, now, a, b, c);
  }

  lemma SecondIsJustified(g: Graph, tenant: Tenant, now: Time, first: Step, second: Step, a: Id, b: Id, c: Id)
    requires g.Keyed() && a in Candidates(g, tenant) && b in Candidates(g, tenant) && c in Candidates(g, tenant)
    requires StraddlesByType(g.nodes[a], g.nodes[b], g.nodes[c])
    requires LinkedPairKey(a, b) !in LinkPairs(g, tenant) && LinkedPairKey(a, c) !in LinkPairs(g, tenant)
    requires first == Merge(b, c, first.rel, 1.0) && second == Merge(a, b, second.rel, 1.0)
             && Plain(first.rel) !in g.rels
    ensures StepJustified(ApplyStep(g, tenant, first, now), tenant, SureOf(a, b, c), second,
                          ResolutionPair(a, b, 1.0, ExactName))
  {
    var after := ApplyStep(g, tenant, first, now);
    NodesAfterStep(g, tenant, first, now);
    assert SameIdentity(after.nodes[a], g.nodes[a]) && SameIdentity(after.nodes[b], g.nodes[b]);
    StillUnlinked(g, tenant, now, first, a);
    MergeIsJustified(after, tenant, SureOf(a, b, c), second);
  }

  lemma NothingSure(g: Graph, tenant: Tenant, a: Id, b: Id, c: Id, x: Id, y: Id)
    requires g.Keyed() && x != y && x !in {b, c} && y !in {b, c}
    ensures !MatchesAt(g, tenant, SureOf(a, b, c), x, y)
  {}

  lemma NothingLeft(g: Graph, tenant: Tenant, steps: seq<Step>, now: Time, a: Id, b: Id, c: Id)
    requires g.Keyed() && LegalRun(g, tenant, Candidates(g, tenant), steps, now)
    requires b !in Live(Candidates(g, tenant), steps) && c !in Live(Candidates(g, tenant), steps)
    ensures AllSettled(g, tenant, SureOf(a, b, c), steps, now)
  {
    KeysAfterRun(g, tenant, Candidates(g, tenant), steps, now);
    forall x, y | Both(g, tenant, steps, x, y) && x != y ensures Settled(g, tenant, SureOf(a, b, c), steps, now, x, y) {
      NothingSure(Run(g, tenant, steps, now), tenant, a, b, c, x, y);
      SettledNow(g, tenant, SureOf(a, b, c), steps, now, x, y);
    }
  }

  /** On a graph where no candidates are linked yet, every pass chooses the (created_at, id)-least node of each cluster,
      whatever the scores, exactly when no undated candidate is straddled by two dated ones of its type. */
  lemma PassChoosesLeastExactlyWhen(g: Graph, tenant: Tenant, now: Time)
    requires g.Keyed() && Unlinked(g, tenant)
    ensures PassesChooseLeast(g, tenant, now) <==> !IsStraddledByType(g, Candidates(g, tenant))
  {
    var some := Candidates(g, tenant);
    if a, b, c :| a in some && b in some && c in some && StraddlesByType(g.nodes[a], g.nodes[b], g.nodes[c]) {
      var steps, pairs := StraddledNodeMisleadsPass(g, tenant, now, a, b, c);
    } else {
      forall score: Scorer, steps, pairs, x | IsPass(g, tenant, score, steps, pairs, now) && x in some
        ensures RepWins(g, some, steps, x)
      {
        SurvivorOfPassIsLeast(g, tenant, score, steps, pairs, now, x);
      }
    }
  }
}
