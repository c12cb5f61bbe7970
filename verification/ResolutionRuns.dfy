/** Entity resolution as a sequence of merges and review links on the graph, and what every such run keeps. */
module ResolutionRuns {
  import opened Common
  import opened GraphModel
  import opened GraphStore

  // ---------- choosing the canonical node ----------

  /** The earlier-created node wins; without two usable and different dates, the smaller id does. */
  predicate Wins(a: Node, b: Node) {
    if a.createdAt.At? && b.createdAt.At? && a.createdAt.ms != b.createdAt.ms
    then a.createdAt.ms < b.createdAt.ms
    else a.id <= b.id
  }

  function CanonicalFirst(a: Node, b: Node): (Node, Node) {
    if Wins(a, b) then (a, b) else (b, a)
  }

  /** First occurrences only, as `Array.from(new Set(...))` keeps them. */
  function Distinct(s: seq<string>): (d: seq<string>)
    ensures Elements(d) == Elements(s)
  {
    if s == [] then []
    else
      var init := Distinct(s[..|s| - 1]);
      assert s == s[..|s| - 1] + [s[|s| - 1]];
      ElementsOfConcat(s[..|s| - 1], [s[|s| - 1]]);
      ElementsOfConcat(init, [s[|s| - 1]]);
      if s[|s| - 1] in init then init else init + [s[|s| - 1]]
  }

  function Without(s: seq<string>, name: string): (d: seq<string>)
    ensures Elements(d) == Elements(s) - {name}
  {
    if s == [] then []
    else
      var rest := Without(s[1..], name);
      assert s == [s[0]] + s[1..];
      ElementsOfConcat([s[0]], s[1..]);
      ElementsOfConcat([s[0]], rest);
      if s[0] == name then rest else [s[0]] + rest
  }

  function MergedAliases(canonical: Node, duplicate: Node): seq<string> {
    Without(Distinct(canonical.aliases + [duplicate.name] + duplicate.aliases), canonical.name)
  }

  function Names(n: Node): set<string> {
    {n.name} + Elements(n.aliases)
  }

  // ---------- the side index of linked pairs ----------

  type Pair = (Id, Id)

  function LinkedPairKey(a: Id, b: Id): Pair {
    if a <= b then (a, b) else (b, a)
  }

  predicate IsLink(r: RelId, rel: Rel, tenant: Tenant) {
    r.Plain? && rel.tenant == tenant && (rel.typ == EntityAliasOf || rel.typ == EntityMergedInto)
  }

  function LinkPairs(g: Graph, tenant: Tenant): set<Pair> {
    set r | r in g.rels && IsLink(r, g.rels[r], tenant) :: LinkedPairKey(g.rels[r].src, g.rels[r].dst)
  }

  predicate Mentions(p: Pair, id: Id) {
    p.0 == id || p.1 == id
  }

  function OtherEnd(p: Pair, id: Id): Id {
    if p.0 == id then p.1 else p.0
  }

  /** Where the keys that mention the duplicate go, apart from the key of the merged pair itself. */
  function MovedKeys(pairs: set<Pair>, canonical: Id, duplicate: Id): set<Pair> {
    set p | p in pairs && Mentions(p, duplicate) && OtherEnd(p, duplicate) !in {canonical, duplicate} ::
      LinkedPairKey(canonical, OtherEnd(p, duplicate))
  }

  /** The keys after surgery, apart from the key of the merged pair itself. */
  function RewiredPairs(pairs: set<Pair>, canonical: Id, duplicate: Id): set<Pair> {
    (set p | p in pairs && !Mentions(p, duplicate)) + MovedKeys(pairs, canonical, duplicate)
  }

  // ---------- runs ----------

  datatype Step =
    | Merge(canonical: Id, duplicate: Id, rel: Id, confidence: real)
    | Review(first: Id, second: Id, rel: Id, confidence: real)

  function LinkRel(tenant: Tenant, typ: RelType, src: Id, dst: Id, confidence: real, now: Time): Rel {
    Rel(tenant, typ, src, dst, confidence, Current, At(now), Absent, At(now), Absent, "entity_resolution_job")
  }

  function ApplyStep(g: Graph, tenant: Tenant, s: Step, now: Time): Graph {
    match s
    case Merge(c, d, rel, confidence) =>
      if c in g.nodes && d in g.nodes then
        Merged(g, g.nodes[c], g.nodes[d], MergedAliases(g.nodes[c], g.nodes[d]), rel,
               LinkRel(tenant, EntityMergedInto, d, c, confidence, now), now)
      else g
    case Review(a, b, rel, confidence) =>
      WithRel(g, rel, LinkRel(tenant, EntityAliasOf, a, b, confidence, now))
  }

  function Run(g: Graph, tenant: Tenant, steps: seq<Step>, now: Time): Graph {
    if steps == [] then g
    else ApplyStep(Run(g, tenant, steps[..|steps| - 1], now), tenant, steps[|steps| - 1], now)
  }

  /** The survivor a node was merged into, or the node itself. */
  function Rep(steps: seq<Step>, x: Id): Id {
    if steps == [] then x
    else
      var y := Rep(steps[..|steps| - 1], x);
      var s := steps[|steps| - 1];
      if s.Merge? then Redirect(y, s.duplicate, s.canonical) else y
  }

  function Live(live: set<Id>, steps: seq<Step>): set<Id> {
    live - (set s | s in steps && s.Merge? :: s.duplicate)
  }

  /** Relationship ids taken by the graph or by the steps so far. */
  function UsedIds(g: Graph, steps: seq<Step>): set<Id> {
    PlainIds(g.rels) + (set s | s in steps :: s.rel)
  }

  ghost predicate LegalStep(before: Graph, live: set<Id>, s: Step, used: set<Id>) {
    && s.rel !in used
    && match s
       case Merge(c, d, _, _) => c in live && d in live && c != d && c in before.nodes && d in before.nodes
                                 && Wins(before.nodes[c], before.nodes[d])
       case Review(a, b, _, _) => a in live && b in live && a != b
  }

  ghost predicate LegalRun(g: Graph, tenant: Tenant, live: set<Id>, steps: seq<Step>, now: Time) {
    steps == [] ||
    var init := steps[..|steps| - 1];
    && LegalRun(g, tenant, live, init, now)
    && LegalStep(Run(g, tenant, init, now), Live(live, init), steps[|steps| - 1], UsedIds(g, init))
  }

  /** The nodes a pass works on: all in the tenant and current when it starts. */
  ghost predicate Start(g: Graph, tenant: Tenant, live: set<Id>) {
    && g.Keyed()
    && live <= g.nodes.Keys
    && forall n :: n in live ==> g.nodes[n].tenant == tenant && g.nodes[n].status == Current
  }

  lemma LiveSnoc(live: set<Id>, init: seq<Step>, s: Step)
    ensures Live(live, init + [s]) == if s.Merge? then Live(live, init) - {s.duplicate} else Live(live, init)
  {
    assert forall t :: t in init + [s] <==> t in init || t == s;
  }

  lemma UsedSnoc(g: Graph, init: seq<Step>, s: Step)
    ensures UsedIds(g, init + [s]) == UsedIds(g, init) + {s.rel}
  {
    assert forall t :: t in init + [s] <==> t in init || t == s;
  }

  /** A merged node never comes back: live nodes are exactly their own representatives. */
  lemma {:induction false} LiveIsOwnRep(g: Graph, tenant: Tenant, live: set<Id>, steps: seq<Step>, now: Time)
    requires LegalRun(g, tenant, live, steps, now)
    ensures forall x :: x in live ==> Rep(steps, x) in Live(live, steps)
    ensures forall x :: x in Live(live, steps) ==> Rep(steps, x) == x
    ensures forall x :: x !in live ==> Rep(steps, x) == x
  {
    if steps == [] {
    } else {
      var init, s := steps[..|steps| - 1], steps[|steps| - 1];
      assert steps == init + [s];
      LiveIsOwnRep(g, tenant, live, init, now);
      LiveSnoc(live, init, s);
    }
  }

  lemma LegalOneMore(g: Graph, tenant: Tenant, live: set<Id>, init: seq<Step>, s: Step, now: Time)
    requires LegalRun(g, tenant, live, init, now)
    requires LegalStep(Run(g, tenant, init, now), Live(live, init), s, UsedIds(g, init))
    ensures LegalRun(g, tenant, live, init + [s], now)
    ensures Run(g, tenant, init + [s], now) == ApplyStep(Run(g, tenant, init, now), tenant, s, now)
    ensures Live(live, init + [s]) == if s.Merge? then Live(live, init) - {s.duplicate} else Live(live, init)
    ensures UsedIds(g, init + [s]) == UsedIds(g, init) + {s.rel}
    ensures forall x :: Rep(init + [s], x) == if s.Merge? then Redirect(Rep(init, x), s.duplicate, s.canonical)
            else Rep(init, x)
  {
    assert (init + [s])[..|init + [s]| - 1] == init;
    LiveSnoc(live, init, s);
    UsedSnoc(g, init, s);
  }
}
